/**
 * The gameplay websocket: admitting a connection, the reconnect and
 * `game_start` bookkeeping when it opens, dispatching each inbound message,
 * and pausing the game when the transport drops. Each of the three is one
 * step on the store; the handler's own socket is `ws`.
 */
module Gameplay {
  import opened Wrappers
  import opened Ids
  import opened Sessions
  import opened Records
  import opened Live
  import Clock
  import GameRegistry
  import Moves
  import UserActions
  import SessionCache

  /** Close code for a game that does not exist. */
  const UnknownGameCode: int := 4004
  /** Close code for a user who plays neither colour. */
  const NotParticipantCode: int := 4003

  const MissingUciText: string := "Missing 'uci' in move message"
  const WaitingReconnectText: string := "Esperando a que el oponente se reconecte"
  const EmptyChatText: string := "Mensaje vacío no permitido."
  const NoSessionFault: string := "AttributeError: 'NoneType' object has no attribute 'disconnected_players'"

  /** The inbound JSON messages, by "type"; a field the client left out is None. */
  datatype Inbound =
    | MoveRequest(uci: Option<string>)
    | CheckTimeout
    | ResignRequest
    | DrawOfferRequest
    | DrawAcceptRequest
    | ChatRequest(message: Option<string>, username: Option<string>)
    | Unrecognised

  /** Python's truthiness of an optional string: present and non-empty. */
  predicate Truthy(v: Option<string>) {
    v.Some? && v.value != ""
  }

  /** Where `u` first occurs in `xs`. */
  function FirstPosition(xs: seq<UserId>, u: UserId): (i: nat)
    requires u in xs
    ensures i < |xs| && xs[i] == u
    ensures forall k :: 0 <= k < i ==> xs[k] != u
  {
    if xs[0] == u then 0
    else
      assert u in xs[1..] by { assert xs == [xs[0]] + xs[1..]; }
      1 + FirstPosition(xs[1..], u)
  }

  /**
   * `list.remove`: drops the first occurrence of `u`, keeping what comes
   * before and after it; a list without `u` is returned as it is.
   */
  function RemoveFirst(xs: seq<UserId>, u: UserId): (r: seq<UserId>)
    ensures u !in xs ==> r == xs
    ensures u in xs ==> exists i :: 0 <= i < |xs| && xs[i] == u && u !in xs[..i] && r == xs[..i] + xs[i + 1..]
  {
    if u !in xs then xs
    else
      var i := FirstPosition(xs, u);
      assert u !in xs[..i];
      xs[..i] + xs[i + 1..]
  }

  // ---------------------------------------------------------------------------
  // Opening the socket

  /**
   * The reconnect branch: a user listed as disconnected is taken off the
   * list once (`paused` is left as it is), told `reconnected`, and the
   * opponent, if connected, is sent `opponent_reconnected` directly.
   */
  function Rejoin(s: Store, row: GameRow, g: ActiveGame, user: UserId, ws: SocketId,
                  failing: set<SocketId>): (r: Step)
    requires WellKeyed(s) && g.gameId == row.id
    ensures user !in g.disconnectedPlayers ==> r == Step(s, [], Done)
    ensures user in g.disconnectedPlayers ==>
              && Cached(r.store, row.id) == Some(g.(disconnectedPlayers := RemoveFirst(g.disconnectedPlayers, user)))
              && r.store.db == s.db && r.store.conns == s.conns
              && |r.sent| >= 1 && r.sent[0] == Outbound({ws}, Reconnected)
    ensures user in g.disconnectedPlayers ==>
              var opponent := if user == row.blackId then row.whiteId else row.blackId;
              match GameRegistry.Get(s.conns, row.id, opponent)
              case None => r.sent == [Outbound({ws}, Reconnected)] && r.reply == Done
              case Some(ows) =>
                if ows in failing then r.sent == [Outbound({ws}, Reconnected)] && r.reply.Fault?
                else r.sent == [Outbound({ws}, Reconnected), Outbound({ows}, OpponentReconnected(user))] && r.reply == Done
    ensures r.reply == Done || r.reply.Fault?
    ensures r.store.conns == s.conns
    ensures WellKeyed(r.store)
  {
    if user !in g.disconnectedPlayers then Step(s, [], Done)
    else
      var s1 := Save(s, g.(disconnectedPlayers := RemoveFirst(g.disconnectedPlayers, user)));
      var told := [Outbound({ws}, Reconnected)];
      var opponent := if user == row.blackId then row.whiteId else row.blackId;
      match GameRegistry.Get(s1.conns, row.id, opponent)
      case None => Step(s1, told, Done)
      case Some(ows) =>
        if ows in failing then Step(s1, told, Fault("send_json on a closed socket"))
        else Step(s1, told + [Outbound({ows}, OpponentReconnected(user))], Done)
  }

  /**
   * The start announcement: when both colours are registered, `game_start`
   * goes to everyone in the game, with the clocks seen from the connecting
   * user's side; otherwise only the connecting socket hears
   * `waiting_for_opponent`.
   */
  function Announce(s: Store, row: GameRow, g: ActiveGame, user: UserId, ws: SocketId,
                    failing: set<SocketId>): (r: Step)
    ensures r.reply == Done && r.store.cache == s.cache && r.store.db == s.db
    ensures |r.sent| == 1
    ensures KeepsSeat(r, s.conns, row.id, user, ws, failing)
    ensures GameRegistry.Get(s.conns, row.id, row.whiteId).Some? && GameRegistry.Get(s.conns, row.id, row.blackId).Some? ==>
              var mine := if user == row.whiteId then g.whiteTimeRemaining else g.blackTimeRemaining;
              var theirs := if user == row.whiteId then g.blackTimeRemaining else g.whiteTimeRemaining;
              r.sent[0] == Outbound(GameRegistry.Broadcast(s.conns, row.id, failing).to,
                                    GameStart(row.id, g.currentFen, mine, theirs))
    ensures !(GameRegistry.Get(s.conns, row.id, row.whiteId).Some? && GameRegistry.Get(s.conns, row.id, row.blackId).Some?) ==>
              r == Step(s, [Outbound({ws}, WaitingForOpponent)], Done)
  {
    if GameRegistry.Get(s.conns, row.id, row.whiteId).Some? && GameRegistry.Get(s.conns, row.id, row.blackId).Some? then
      var mine := if user == row.whiteId then g.whiteTimeRemaining else g.blackTimeRemaining;
      var theirs := if user == row.whiteId then g.blackTimeRemaining else g.whiteTimeRemaining;
      Broadcast(s, row.id, GameStart(row.id, g.currentFen, mine, theirs), failing)
    else Step(s, [Outbound({ws}, WaitingForOpponent)], Done)
  }

  /** Both colours of game `id` have a registered socket. */
  predicate BothSeated(conns: GameRegistry.Registry, id: GameId, white: UserId, black: UserId) {
    GameRegistry.Get(conns, id, white).Some? && GameRegistry.Get(conns, id, black).Some?
  }

  /** A completed open ends with `game_start` exactly when both colours are registered in `conns`. */
  predicate StartsIffSeated(r: Step, conns: GameRegistry.Registry, id: GameId, white: UserId, black: UserId) {
    r.reply == Done ==> |r.sent| >= 1 && (r.sent[|r.sent| - 1].msg.GameStart? <==> BothSeated(conns, id, white, black))
  }

  /** A user registered on a working socket in `conns` is still registered on it after the step. */
  predicate KeepsSeat(r: Step, conns: GameRegistry.Registry, id: GameId, user: UserId, ws: SocketId, failing: set<SocketId>) {
    ws !in failing && GameRegistry.Get(conns, id, user) == Some(ws) ==> GameRegistry.Get(r.store.conns, id, user) == Some(ws)
  }

  /** The reconnect branch followed by the start announcement. */
  function Greet(s: Store, row: GameRow, g: ActiveGame, user: UserId, ws: SocketId,
                 failing: set<SocketId>): (r: Step)
    requires WellKeyed(s) && g.gameId == row.id
    ensures r.reply == Done || r.reply.Fault?
    ensures r.store.db == s.db
    ensures StartsIffSeated(r, s.conns, row.id, row.whiteId, row.blackId)
    ensures KeepsSeat(r, s.conns, row.id, user, ws, failing)
    ensures WellKeyed(r.store)
  {
    var back := Rejoin(s, row, g, user, ws, failing);
    if back.reply.Fault? then back
    else
      var g' := if user in g.disconnectedPlayers
                then g.(disconnectedPlayers := RemoveFirst(g.disconnectedPlayers, user)) else g;
      var hello := Announce(back.store, row, g', user, ws, failing);
      assert (back.sent + hello.sent)[|back.sent + hello.sent| - 1] == hello.sent[0];
      Step(hello.store, back.sent + hello.sent, Done)
  }

  /**
   * Opening `websocket_game`: an unknown game is closed with 4004 and a
   * non-participant with 4003, both before registration; otherwise the
   * socket is registered, the session looked up, the reconnect branch run,
   * and the start announced.
   */
  function Open(s: Store, id: GameId, user: UserId, ws: SocketId, failing: set<SocketId>): (r: Step)
    requires WellKeyed(s)
    ensures id !in s.db ==> r == Step(s, [], Closed(UnknownGameCode))
    ensures id in s.db && user != s.db[id].whiteId && user != s.db[id].blackId ==> r == Step(s, [], Closed(NotParticipantCode))
    ensures id in s.db && (user == s.db[id].whiteId || user == s.db[id].blackId) ==>
              && !r.reply.Closed?
              && r.store.db == s.db
              && StartsIffSeated(r, GameRegistry.Connect(s.conns, id, user, ws), id, s.db[id].whiteId, s.db[id].blackId)
              && (ws !in failing ==> GameRegistry.Get(r.store.conns, id, user) == Some(ws))
    ensures WellKeyed(r.store)
  {
    if id !in s.db then Step(s, [], Closed(UnknownGameCode))
    else
      var row := s.db[id];
      if user != row.whiteId && user != row.blackId then Step(s, [], Closed(NotParticipantCode))
      else Admit(s, id, user, ws, failing)
  }

  /** A participant's socket is registered, the session looked up and the participant greeted. */
  function Admit(s: Store, id: GameId, user: UserId, ws: SocketId, failing: set<SocketId>): (r: Step)
    requires WellKeyed(s) && id in s.db
    ensures !r.reply.Closed?
    ensures r.store.db == s.db
    ensures StartsIffSeated(r, GameRegistry.Connect(s.conns, id, user, ws), id, s.db[id].whiteId, s.db[id].blackId)
    ensures ws !in failing ==> GameRegistry.Get(r.store.conns, id, user) == Some(ws)
    ensures WellKeyed(r.store)
  {
    var s1 := s.(conns := GameRegistry.Connect(s.conns, id, user, ws));
    assert WellKeyed(s1);
    match Lookup(s1, id)
    case Failure(e) => Step(s1, [], Fault(e))
    case Success(found) => GreetFound(found, s.db[id], user, ws, failing)
  }

  /** After the lookup: no session is a fault, a session greets the participant. */
  function GreetFound(found: Found, row: GameRow, user: UserId, ws: SocketId, failing: set<SocketId>): (r: Step)
    requires WellKeyed(found.store)
    requires found.game.Some? ==> found.game.value.gameId == row.id
    ensures !r.reply.Closed?
    ensures r.store.db == found.store.db
    ensures StartsIffSeated(r, found.store.conns, row.id, row.whiteId, row.blackId)
    ensures KeepsSeat(r, found.store.conns, row.id, user, ws, failing)
    ensures WellKeyed(r.store)
  {
    match found.game
    case None => Step(found.store, [], Fault(NoSessionFault))
    case Some(g) => Greet(found.store, row, g, user, ws, failing)
  }

  // ---------------------------------------------------------------------------
  // Inbound messages

  /**
   * A move message that carries a `uci`: a failed lookup propagates, a
   * missing session raises, a move while anyone is away is refused on this
   * socket with only the lookup's write-back kept, and otherwise the move
   * service decides, its `InvalidMove` becoming an error on this socket.
   */
  function SubmitMove(s: Store, rules: Moves.Rules, id: GameId, user: UserId, ws: SocketId, uci: string,
                      now: Instant, failing: set<SocketId>): (r: Step)
    requires WellKeyed(s)
    ensures Lookup(s, id).Failure? ==> r == Step(s, [], Fault(Lookup(s, id).error))
    ensures Lookup(s, id).Success? && Lookup(s, id).value.game.None? ==>
              r == Step(Lookup(s, id).value.store, [], Fault(NoSessionFault))
    ensures Lookup(s, id).Success? && Lookup(s, id).value.game.Some?
            && |Lookup(s, id).value.game.value.disconnectedPlayers| > 0 ==>
              r == Step(Lookup(s, id).value.store, [Outbound({ws}, ErrorMessage(WaitingReconnectText))], Done)
    ensures Lookup(s, id).Success? && Lookup(s, id).value.game.Some?
            && |Lookup(s, id).value.game.value.disconnectedPlayers| == 0 ==>
              var m := Moves.HandleMove(Lookup(s, id).value.store, rules, id, user, uci, now, failing);
              && (m.reply.Invalid? ==> r == Step(m.store, [Outbound({ws}, ErrorMessage(m.reply.reason))], Done))
              && (!m.reply.Invalid? ==> r == m)
    ensures !r.reply.Invalid?
    ensures WellKeyed(r.store)
  {
    match Lookup(s, id)
    case Failure(e) => Step(s, [], Fault(e))
    case Success(found) =>
      match found.game
      case None => Step(found.store, [], Fault(NoSessionFault))
      case Some(g) =>
        if |g.disconnectedPlayers| > 0 then
          Step(found.store, [Outbound({ws}, ErrorMessage(WaitingReconnectText))], Done)
        else
          var m := Moves.HandleMove(found.store, rules, id, user, uci, now, failing);
          if m.reply.Invalid? then Step(m.store, [Outbound({ws}, ErrorMessage(m.reply.reason))], Done)
          else m
  }

  /**
   * A `check_timeout` message: only an active game with nobody away whose
   * side to move has run out of time is ended, as a timeout loss for that
   * side; every other case sends nothing and keeps only the lookup's
   * write-back.
   */
  function Sweep(s: Store, id: GameId, now: Instant, failing: set<SocketId>): (r: Step)
    requires WellKeyed(s)
    ensures Lookup(s, id).Failure? ==> r == Step(s, [], Fault(Lookup(s, id).error))
    ensures Lookup(s, id).Success? ==>
              var found := Lookup(s, id).value;
              && ((!UserActions.Playing(found) || |found.game.value.disconnectedPlayers| > 0
                   || Clock.GetTimeoutLoser(found.game.value, now).None?) ==> r == Step(found.store, [], Done))
              && (UserActions.Playing(found) && |found.game.value.disconnectedPlayers| == 0
                  && Clock.GetTimeoutLoser(found.game.value, now).Some? ==>
                    var loser := found.game.value.turn;
                    && Cached(r.store, id) == Some(found.game.value.(status := TerminationName(Timeout)))
                    && (id in s.db ==>
                          && id in r.store.db && r.store.db[id].result == Some(LossFor(loser))
                          && r.store.db[id].termination == Some(Timeout) && r.store.db[id].status == Completed
                          && r.reply == Done))
    ensures WellKeyed(r.store)
  {
    match Lookup(s, id)
    case Failure(e) => Step(s, [], Fault(e))
    case Success(found) =>
      if !UserActions.Playing(found) || |found.game.value.disconnectedPlayers| > 0 then Step(found.store, [], Done)
      else
        match Clock.GetTimeoutLoser(found.game.value, now)
        case None => Step(found.store, [], Done)
        case Some(loser) => Moves.HandleTimeoutLoss(found.store, id, loser, found.game.value, now, failing)
  }

  /**
   * One iteration of the receive loop. A move without `uci` and an empty chat
   * get an error on this socket; a move while anyone is disconnected is
   * refused likewise; an `InvalidMove` becomes an error message;
   * `check_timeout` finalizes only an active game with nobody away whose
   * peek names a loser; the rest go to their handlers.
   */
  function Receive(s: Store, rules: Moves.Rules, id: GameId, user: UserId, ws: SocketId, msg: Inbound,
                   now: Instant, failing: set<SocketId>): (r: Step)
    requires WellKeyed(s)
    ensures msg.MoveRequest? && !Truthy(msg.uci) ==> r == Step(s, [Outbound({ws}, ErrorMessage(MissingUciText))], Done)
    ensures msg.MoveRequest? && Truthy(msg.uci) && Lookup(s, id).Success? && Lookup(s, id).value.game.Some?
            && |Lookup(s, id).value.game.value.disconnectedPlayers| > 0 ==>
              r == Step(Lookup(s, id).value.store, [Outbound({ws}, ErrorMessage(WaitingReconnectText))], Done)
    ensures msg.MoveRequest? && Truthy(msg.uci) && Lookup(s, id).Success? && Lookup(s, id).value.game.Some?
            && |Lookup(s, id).value.game.value.disconnectedPlayers| == 0 ==>
              var m := Moves.HandleMove(Lookup(s, id).value.store, rules, id, user, msg.uci.value, now, failing);
              && (m.reply.Invalid? ==> r == Step(m.store, [Outbound({ws}, ErrorMessage(m.reply.reason))], Done))
              && (!m.reply.Invalid? ==> r == m)
    ensures msg.CheckTimeout? && Lookup(s, id).Success? ==>
              var found := Lookup(s, id).value;
              && ((!UserActions.Playing(found) || |found.game.value.disconnectedPlayers| > 0
                   || Clock.GetTimeoutLoser(found.game.value, now).None?) ==> r == Step(found.store, [], Done))
              && (UserActions.Playing(found) && |found.game.value.disconnectedPlayers| == 0
                  && Clock.GetTimeoutLoser(found.game.value, now).Some? ==>
                    Cached(r.store, id) == Some(found.game.value.(status := TerminationName(Timeout))))
    ensures msg.ChatRequest? && !Truthy(msg.message) ==> r == Step(s, [Outbound({ws}, ErrorMessage(EmptyChatText))], Done)
    ensures msg.Unrecognised? ==> r == Step(s, [], Done)
    ensures WellKeyed(r.store)
  {
    match msg
    case MoveRequest(uci) =>
      if !Truthy(uci) then Step(s, [Outbound({ws}, ErrorMessage(MissingUciText))], Done)
      else SubmitMove(s, rules, id, user, ws, uci.value, now, failing)
    case CheckTimeout => Sweep(s, id, now, failing)
    case ResignRequest => UserActions.HandleResign(s, id, user, now, failing)
    case DrawOfferRequest => UserActions.HandleDrawOffer(s, id, user, failing)
    case DrawAcceptRequest => UserActions.HandleDrawAccept(s, id, now, failing)
    case ChatRequest(message, username) =>
      if !Truthy(message) then Step(s, [Outbound({ws}, ErrorMessage(EmptyChatText))], Done)
      else UserActions.HandleChatMessage(s, id, username, message.value, failing)
    case Unrecognised => Step(s, [], Done)
  }

  // ---------------------------------------------------------------------------
  // Transport disconnect

  /** The disconnected list after `user` drops: appended once, never twice. */
  function MarkAway(xs: seq<UserId>, user: UserId): (r: seq<UserId>)
    ensures user in r
    ensures multiset(r)[user] == if user in xs then multiset(xs)[user] else 1
    ensures forall v :: v != user ==> multiset(r)[v] == multiset(xs)[v]
  {
    if user in xs then xs else xs + [user]
  }

  /**
   * The `WebSocketDisconnect` branch: the (game, user) registration is
   * removed, then the session is paused and lists the user as disconnected.
   */
  function Close(s: Store, id: GameId, user: UserId): (r: Step)
    requires WellKeyed(s)
    ensures GameRegistry.Get(r.store.conns, id, user).None?
    ensures r.store.conns == GameRegistry.Disconnect(s.conns, id, user) && r.sent == [] && r.store.db == s.db
    ensures var s1 := s.(conns := GameRegistry.Disconnect(s.conns, id, user));
            Lookup(s1, id).Success? && Lookup(s1, id).value.game.Some? ==>
              var g := Lookup(s1, id).value.game.value;
              && r.reply == Done
              && Cached(r.store, id) == Some(g.(paused := true, disconnectedPlayers := MarkAway(g.disconnectedPlayers, user)))
    ensures WellKeyed(r.store)
  {
    var s1 := s.(conns := GameRegistry.Disconnect(s.conns, id, user));
    assert WellKeyed(s1);
    match Lookup(s1, id)
    case Failure(e) => Step(s1, [], Fault(e))
    case Success(found) => PauseFound(found, user)
  }

  /** After the lookup: no session raises, a session is saved paused with the user marked away. */
  function PauseFound(found: Found, user: UserId): (r: Step)
    requires WellKeyed(found.store)
    ensures r.store.conns == found.store.conns && r.sent == [] && r.store.db == found.store.db
    ensures found.game.Some? ==>
              var g := found.game.value;
              && r.reply == Done
              && Cached(r.store, g.gameId) == Some(g.(paused := true, disconnectedPlayers := MarkAway(g.disconnectedPlayers, user)))
    ensures WellKeyed(r.store)
  {
    match found.game
    case None => Step(found.store, [], Fault("AttributeError: 'NoneType' object has no attribute 'paused'"))
    case Some(g) =>
      Step(Save(found.store, g.(paused := true, disconnectedPlayers := MarkAway(g.disconnectedPlayers, user))), [], Done)
  }

  // ---------------------------------------------------------------------------
  // Properties across steps

  /** Reconnecting takes the user off the disconnected list but does not unpause the game. */
  lemma ReconnectKeepsPaused(s: Store, id: GameId, user: UserId, ws: SocketId, failing: set<SocketId>)
    requires WellKeyed(s) && id in s.db
    requires user == s.db[id].whiteId || user == s.db[id].blackId
    requires Cached(s, id).Some? && user in Cached(s, id).value.disconnectedPlayers
    ensures var g := Cached(s, id).value;
            Cached(Open(s, id, user, ws, failing).store, id) ==
              Some(g.(disconnectedPlayers := RemoveFirst(g.disconnectedPlayers, user)))
  {
    var s1 := s.(conns := GameRegistry.Connect(s.conns, id, user, ws));
    assert Cached(s1, id) == Cached(s, id);
  }

  /** A store where the user is already unregistered and listed as away in a paused session is left as it is. */
  lemma CloseFixpoint(t: Store, id: GameId, user: UserId)
    requires WellKeyed(t)
    requires GameRegistry.Get(t.conns, id, user).None?
    requires Cached(t, id).Some? && Cached(t, id).value.paused && user in Cached(t, id).value.disconnectedPlayers
    ensures Close(t, id, user) == Step(t, [], Done)
  {
    assert GameRegistry.Disconnect(t.conns, id, user) == t.conns;
    var g := Cached(t, id).value;
    assert t.(conns := t.conns) == t;
    assert g.(paused := true, disconnectedPlayers := MarkAway(g.disconnectedPlayers, user)) == g;
    assert t.cache[SessionCache.Key(id) := g] == t.cache;
  }

  /** A second drop of the same connection changes nothing more: the user is listed once and the game stays paused. */
  lemma CloseIdempotent(s: Store, id: GameId, user: UserId)
    requires WellKeyed(s)
    requires Close(s, id, user).reply == Done
    ensures Close(Close(s, id, user).store, id, user).store == Close(s, id, user).store
  {
    var s1 := s.(conns := GameRegistry.Disconnect(s.conns, id, user));
    assert WellKeyed(s1);
    CloseFixpoint(Close(s, id, user).store, id, user);
  }

  /** Removing the first `u` from a list that only has `u` appended at the end gives back the list. */
  lemma RemoveFirstAppended(xs: seq<UserId>, u: UserId)
    requires u !in xs
    ensures RemoveFirst(xs + [u], u) == xs
  {
    var ys := xs + [u];
    assert ys[|xs|] == u;
    var i :| 0 <= i < |ys| && ys[i] == u && u !in ys[..i] && RemoveFirst(ys, u) == ys[..i] + ys[i + 1..];
    if i < |xs| {
      assert false;
    }
    assert ys[..i] == xs;
  }

  /**
   * Dropping the connection and coming back restores the disconnected list
   * but leaves the game paused, so from then on every move is refused as
   * paused.
   */
  lemma DropAndReturnStaysPaused(s: Store, rules: Moves.Rules, id: GameId, user: UserId, ws: SocketId,
                                 uci: string, now: Instant, failing: set<SocketId>)
    requires WellKeyed(s) && id in s.db
    requires user == s.db[id].whiteId || user == s.db[id].blackId
    requires Cached(s, id).Some? && user !in Cached(s, id).value.disconnectedPlayers
    requires Cached(s, id).value.status == ActiveStatus
    ensures var g := Cached(s, id).value;
            var back := Open(Close(s, id, user).store, id, user, ws, failing).store;
            && Cached(back, id) == Some(g.(paused := true))
            && Moves.HandleMove(back, rules, id, user, uci, now, failing) == Step(back, [], Invalid(Moves.PausedReason))
  {
    var g := Cached(s, id).value;
    var s1 := s.(conns := GameRegistry.Disconnect(s.conns, id, user));
    assert WellKeyed(s1);
    assert Cached(s1, id) == Cached(s, id);
    var t := Close(s, id, user).store;
    var g1 := g.(paused := true, disconnectedPlayers := g.disconnectedPlayers + [user]);
    assert Cached(t, id) == Some(g1);
    var back := Open(t, id, user, ws, failing).store;
    assert Cached(back, id) == Some(g.(paused := true)) by {
      ReconnectKeepsPaused(t, id, user, ws, failing);
      RemoveFirstAppended(g.disconnectedPlayers, user);
      assert g1.(disconnectedPlayers := g.disconnectedPlayers) == g.(paused := true);
    }
    Moves.PausedGameRefusesMoves(back, rules, id, user, uci, now, failing);
  }
}
