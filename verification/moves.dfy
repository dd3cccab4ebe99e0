/**
 * The move service: the guard chain a move must pass, the clock tick and the
 * state update of an accepted move, the end-of-game classification that
 * follows it, and the timeout finalizer. Chess itself (move syntax,
 * legality, playing a move, and what the resulting position is) is the
 * `Rules` oracle.
 */
module Moves {
  import opened Wrappers
  import opened Ids
  import opened Sessions
  import opened Records
  import opened Live
  import Clock
  import GameRegistry

  /** What the rules report about a position once a move has been pushed. */
  datatype PositionFlags = PositionFlags(
    gameOver: bool,
    checkmate: bool,
    stalemate: bool,
    insufficientMaterial: bool,
    threefold: bool,
    fiftyMoves: bool)

  /**
   * The chess rules: whether a string is UCI move syntax, whether a move is
   * legal in a position, the position after it together with its SAN, and
   * the flags of a position.
   */
  datatype Rules = Rules(
    parses: string -> bool,
    isLegal: (string, string) -> bool,
    play: (string, string) -> (string, string),
    flags: string -> PositionFlags)

  const NotActiveReason: string := "Partida no activa o no encontrada."
  const PausedReason: string := "El juego está pausado, esperando reconexión."
  const NotYourTurnReason: string := "No es tu turno."
  const MalformedReason: string := "Formato de movimiento inválido."
  const IllegalReason: string := "Movimiento ilegal."

  /** The end reasons in the order they are tested. */
  const Priority: seq<Termination> := [Checkmate, Stalemate, InsufficientMaterial, ThreefoldRepetition, FiftyMoveRule]

  /** Whether the flags report end reason `t`. */
  predicate Holds(f: PositionFlags, t: Termination) {
    match t
    case Checkmate => f.checkmate
    case Stalemate => f.stalemate
    case InsufficientMaterial => f.insufficientMaterial
    case ThreefoldRepetition => f.threefold
    case FiftyMoveRule => f.fiftyMoves
    case _ => false
  }

  /**
   * The branch chain of `check_game_end`: the first reason in `Priority` the
   * flags report; checkmate is won by the colour that just moved, every other
   * reason is a draw.
   */
  function EndReason(f: PositionFlags, mover: Color): (r: Option<(GameResult, Termination)>)
    ensures r.Some? <==> exists k :: 0 <= k < |Priority| && Holds(f, Priority[k])
    ensures r.Some? ==> exists k :: && 0 <= k < |Priority| && Priority[k] == r.value.1 && Holds(f, Priority[k])
                                    && forall j :: 0 <= j < k ==> !Holds(f, Priority[j])
    ensures r.Some? ==> (r.value.0 == Draw <==> r.value.1 != Checkmate)
    ensures r.Some? && r.value.1 == Checkmate ==> r.value.0 == WinFor(mover)
  {
    if f.checkmate then
      assert Holds(f, Priority[0]);
      Some((WinFor(mover), Checkmate))
    else if f.stalemate then
      assert Holds(f, Priority[1]);
      Some((Draw, Stalemate))
    else if f.insufficientMaterial then
      assert Holds(f, Priority[2]);
      Some((Draw, InsufficientMaterial))
    else if f.threefold then
      assert Holds(f, Priority[3]);
      Some((Draw, ThreefoldRepetition))
    else if f.fiftyMoves then
      assert Holds(f, Priority[4]);
      Some((Draw, FiftyMoveRule))
    else
      assert forall k :: 0 <= k < |Priority| ==> !Holds(f, Priority[k]);
      None
  }

  /** An end reason never depends on the lower-priority flags once a higher one is set. */
  lemma EndReasonPriority(f: PositionFlags, g: PositionFlags, mover: Color, k: nat)
    requires k < |Priority| && Holds(f, Priority[k]) && Holds(g, Priority[k])
    requires forall j :: 0 <= j <= k ==> (Holds(f, Priority[j]) <==> Holds(g, Priority[j]))
    ensures EndReason(f, mover) == EndReason(g, mover)
  {
    var rf, rg := EndReason(f, mover), EndReason(g, mover);
    var kf :| 0 <= kf < |Priority| && Priority[kf] == rf.value.1 && Holds(f, Priority[kf])
              && forall j :: 0 <= j < kf ==> !Holds(f, Priority[j]);
    var kg :| 0 <= kg < |Priority| && Priority[kg] == rg.value.1 && Holds(g, Priority[kg])
              && forall j :: 0 <= j < kg ==> !Holds(g, Priority[j]);
    assert kf <= k && kg <= k;
    assert kf == kg;
  }

  /**
   * The guards of `handle_move`, in order, for a session that was found: the
   * reason the move is refused, or None when it may be played.
   */
  function Refusal(g: ActiveGame, user: UserId, uci: string, rules: Rules): (r: Option<string>)
    ensures r.None? <==> && g.status == ActiveStatus && !g.paused && user == g.PlayerOf(g.turn)
                         && rules.parses(uci) && rules.isLegal(g.currentFen, uci)
    ensures g.status != ActiveStatus ==> r == Some(NotActiveReason)
    ensures g.status == ActiveStatus && g.paused ==> r == Some(PausedReason)
    ensures r == Some(NotYourTurnReason) ==> user != g.PlayerOf(g.turn) && !g.paused
    ensures r == Some(MalformedReason) || r == Some(IllegalReason) ==> user == g.PlayerOf(g.turn)
    ensures r == Some(IllegalReason) ==> rules.parses(uci) && !rules.isLegal(g.currentFen, uci)
  {
    if g.status != ActiveStatus then Some(NotActiveReason)
    else if g.paused then Some(PausedReason)
    else if user != g.PlayerOf(g.turn) then Some(NotYourTurnReason)
    else if !rules.parses(uci) then Some(MalformedReason)
    else if !rules.isLegal(g.currentFen, uci) then Some(IllegalReason)
    else None
  }

  /**
   * The session after an accepted move that did not run the clock out: the
   * mover is charged and then given the increment, the position and SAN come
   * from the rules, the timestamp becomes `now`, the turn passes, and both
   * move lists grow by the move.
   */
  function Play(g: ActiveGame, uci: string, rules: Rules, now: Instant): (r: ActiveGame)
    ensures r.movesUci == g.movesUci + [uci]
    ensures r.movesSan == g.movesSan + [rules.play(g.currentFen, uci).1]
    ensures r.currentFen == rules.play(g.currentFen, uci).0
    ensures r.turn == Opponent(g.turn) && r.lastMoveTimestamp == Some(now)
    ensures r.Remaining(g.turn) == Clock.UpdateTime(g, now).game.Remaining(g.turn) + g.increment
    ensures r.Remaining(Opponent(g.turn)) == g.Remaining(Opponent(g.turn))
    ensures r.(currentFen := g.currentFen, turn := g.turn, lastMoveTimestamp := g.lastMoveTimestamp,
               movesUci := g.movesUci, movesSan := g.movesSan,
               whiteTimeRemaining := g.whiteTimeRemaining, blackTimeRemaining := g.blackTimeRemaining) == g
  {
    var (fen, san) := rules.play(g.currentFen, uci);
    Clock.ApplyIncrement(Clock.UpdateTime(g, now).game).(
      currentFen := fen, lastMoveTimestamp := Some(now), turn := Opponent(g.turn),
      movesUci := g.movesUci + [uci], movesSan := g.movesSan + [san])
  }

  /** The two move lists stay in step and the turn follows their length. */
  predicate InStep(g: ActiveGame) {
    && |g.movesSan| == |g.movesUci|
    && g.turn == (if |g.movesUci| % 2 == 0 then White else Black)
  }

  /** Playing a move keeps the move lists in step with each other and with the turn. */
  lemma PlayKeepsInStep(g: ActiveGame, uci: string, rules: Rules, now: Instant)
    requires InStep(g)
    ensures InStep(Play(g, uci, rules, now))
  {
  }

  /**
   * `handle_timeout_loss`: the session, as the caller passes it, is stored
   * with status "timeout"; the row gets the loss for `loser`; both players
   * are told.
   */
  function HandleTimeoutLoss(s: Store, id: GameId, loser: Color, g: ActiveGame,
                             now: Instant, failing: set<SocketId>): (r: Step)
    requires WellKeyed(s) && g.gameId == id
    ensures Cached(r.store, id) == Some(g.(status := TerminationName(Timeout)))
    ensures r.reply == Done <==> id in s.db
    ensures id in s.db ==>
              && id in r.store.db
              && r.store.db[id].result == Some(LossFor(loser))
              && r.store.db[id].termination == Some(Timeout)
              && r.store.db[id].status == Completed
              && r.sent == [Outbound(GameRegistry.Broadcast(s.conns, id, failing).to, GameOver(LossFor(loser), Timeout))]
    ensures r.reply.Fault? ==> r.sent == []
  {
    Finish(s, id, g, LossFor(loser), Timeout, now, failing)
  }

  /**
   * `check_game_end`, given the flags of the position just reached. When the
   * game is over the row is written first; a game-over position none of the
   * five reasons explains leaves result and termination null and then raises
   * when the message is built. The cached session is not touched.
   */
  function CheckGameEnd(s: Store, id: GameId, g: ActiveGame, f: PositionFlags,
                        now: Instant, failing: set<SocketId>): (r: Step)
    ensures r.store.cache == s.cache
    ensures !f.gameOver ==> r == Step(s, [], Done)
    ensures f.gameOver && id in s.db ==>
              id in r.store.db && RecordsEnd(r.store.db[id], EndReason(f, Opponent(g.turn)), g)
    ensures r.reply == Done <==> !f.gameOver || (id in s.db && EndReason(f, Opponent(g.turn)).Some?)
    ensures f.gameOver && r.reply == Done ==>
              r.sent == [Outbound(GameRegistry.Broadcast(s.conns, id, failing).to,
                                  GameOver(EndReason(f, Opponent(g.turn)).value.0, EndReason(f, Opponent(g.turn)).value.1))]
    ensures r.reply != Done ==> r.reply.Fault? && r.sent == []
    ensures WellKeyed(s) ==> WellKeyed(r.store)
  {
    if !f.gameOver then Step(s, [], Done)
    else RecordEnd(s, id, g, EndReason(f, Opponent(g.turn)), now, failing)
  }

  /** The game-over branch of `check_game_end`, for a reason already determined (or none). */
  function RecordEnd(s: Store, id: GameId, g: ActiveGame, reason: Option<(GameResult, Termination)>,
                     now: Instant, failing: set<SocketId>): (r: Step)
    ensures r.store.cache == s.cache
    ensures id in s.db ==> id in r.store.db && RecordsEnd(r.store.db[id], reason, g)
    ensures r.reply == Done <==> id in s.db && reason.Some?
    ensures r.reply == Done ==>
              r.sent == [Outbound(GameRegistry.Broadcast(s.conns, id, failing).to, GameOver(reason.value.0, reason.value.1))]
    ensures r.reply != Done ==> r.reply.Fault? && r.sent == []
    ensures WellKeyed(s) ==> WellKeyed(r.store)
  {
    var result := if reason.Some? then Some(reason.value.0) else None;
    var termination := if reason.Some? then Some(reason.value.1) else None;
    if id !in s.db then Step(s, [], Fault(FinalizeRow(s.db, id, result, termination, g.currentFen, g.movesSan, now).error))
    else
      var db := FinalizeRow(s.db, id, result, termination, g.currentFen, g.movesSan, now).value;
      assert RecordsEnd(db[id], reason, g);
      assert WellKeyed(s) ==> WellKeyed(s.(db := db)) by {
        if WellKeyed(s) { FinalizeKeepsKeys(s, id, result, termination, g.currentFen, g.movesSan, now); }
      }
      if reason.None? then Step(s.(db := db), [], Fault("AttributeError: 'NoneType' object has no attribute 'value'"))
      else Broadcast(s.(db := db), id, GameOver(reason.value.0, reason.value.1), failing)
  }

  /** The move itself: play it, save the session, broadcast `move_made`, then check for the end of the game. */
  function PlayAndAnnounce(s: Store, rules: Rules, id: GameId, g: ActiveGame, uci: string,
                           now: Instant, failing: set<SocketId>): (r: Step)
    requires WellKeyed(s) && g.gameId == id
    ensures Cached(r.store, id) == Some(Play(g, uci, rules, now))
    ensures |r.sent| >= 1
    ensures r.sent[0].msg == MoveMade(uci, rules.play(g.currentFen, uci).1, rules.play(g.currentFen, uci).0,
                                      Opponent(g.turn), Play(g, uci, rules, now).whiteTimeRemaining,
                                      Play(g, uci, rules, now).blackTimeRemaining)
    ensures r.reply == Done || r.reply.Fault?
    ensures WellKeyed(r.store)
  {
    var g' := Play(g, uci, rules, now);
    var s1 := Save(s, g');
    var moved := Broadcast(s1, id, MoveMade(uci, rules.play(g.currentFen, uci).1, g'.currentFen,
                                           g'.turn, g'.whiteTimeRemaining, g'.blackTimeRemaining), failing);
    assert WellKeyed(moved.store) && Cached(moved.store, id) == Some(g');
    var ended := CheckGameEnd(moved.store, id, g', rules.flags(g'.currentFen), now, failing);
    Step(ended.store, moved.sent + ended.sent, ended.reply)
  }

  /**
   * What follows the guards of `handle_move` for a session `g` that passed
   * them: the tick, then either the timeout finalizer or the move itself.
   */
  function Advance(s: Store, rules: Rules, id: GameId, g: ActiveGame, uci: string,
                   now: Instant, failing: set<SocketId>): (r: Step)
    requires WellKeyed(s) && g.gameId == id
    ensures Clock.UpdateTime(g, now).loser.Some? ==>
              && Cached(r.store, id) == Some(Clock.UpdateTime(g, now).game.(status := TerminationName(Timeout)))
              && (id in s.db ==> id in r.store.db && r.store.db[id].result == Some(LossFor(g.turn)))
    ensures Clock.UpdateTime(g, now).loser.None? ==> r == PlayAndAnnounce(s, rules, id, g, uci, now, failing)
    ensures r.reply == Done || r.reply.Fault?
    ensures WellKeyed(r.store)
  {
    var tick := Clock.UpdateTime(g, now);
    if tick.loser.Some? then
      HandleTimeoutLoss(s, id, tick.loser.value, tick.game, now, failing)
    else
      PlayAndAnnounce(s, rules, id, g, uci, now, failing)
  }

  /**
   * `handle_move`. The lookup (which may rebuild and cache the session) comes
   * first; a missing or finished session, a pause, the wrong player, bad
   * syntax and an illegal move are refused in that order without touching
   * the clock. Then the mover's clock is ticked: running out ends the game
   * by timeout and the move is dropped. Otherwise the move is played, the
   * session saved, `move_made` broadcast, and the new position checked for
   * the end of the game.
   */
  function HandleMove(s: Store, rules: Rules, id: GameId, user: UserId, uci: string,
                      now: Instant, failing: set<SocketId>): (r: Step)
    requires WellKeyed(s)
    ensures Lookup(s, id).Failure? ==> r == Step(s, [], Fault(Lookup(s, id).error))
    ensures Lookup(s, id).Success? && Lookup(s, id).value.game.None? ==>
              r == Step(s, [], Invalid(NotActiveReason))
    ensures Lookup(s, id).Success? && Lookup(s, id).value.game.Some? ==>
              var found := Lookup(s, id).value;
              var g := found.game.value;
              && (Refusal(g, user, uci, rules).Some? ==>
                    r == Step(found.store, [], Invalid(Refusal(g, user, uci, rules).value)))
              && (Refusal(g, user, uci, rules).None? ==> r == Advance(found.store, rules, id, g, uci, now, failing))
    ensures r.reply.Invalid? ==> r.sent == []
    ensures WellKeyed(r.store)
  {
    match Lookup(s, id)
    case Failure(e) => Step(s, [], Fault(e))
    case Success(found) =>
      match found.game
      case None => Step(found.store, [], Invalid(NotActiveReason))
      case Some(g) =>
        match Refusal(g, user, uci, rules)
        case Some(reason) => Step(found.store, [], Invalid(reason))
        case None => Advance(found.store, rules, id, g, uci, now, failing)
  }

  /** A move that runs the clock out is not played: position, turn and both move lists stay as they were. */
  lemma TimeoutDropsMove(s: Store, rules: Rules, id: GameId, g: ActiveGame, uci: string,
                         now: Instant, failing: set<SocketId>)
    requires WellKeyed(s) && g.gameId == id
    requires Clock.UpdateTime(g, now).loser.Some?
    ensures var c := Cached(Advance(s, rules, id, g, uci, now, failing).store, id);
            && c.Some?
            && c.value.movesUci == g.movesUci && c.value.movesSan == g.movesSan
            && c.value.currentFen == g.currentFen && c.value.turn == g.turn
            && c.value.status == TerminationName(Timeout)
  {
  }

  /** Once the cached session is no longer "active", every move is refused and nothing changes. */
  lemma FinishedGameRefusesMoves(s: Store, rules: Rules, id: GameId, user: UserId, uci: string,
                                 now: Instant, failing: set<SocketId>)
    requires WellKeyed(s)
    requires Cached(s, id).Some? && Cached(s, id).value.status != ActiveStatus
    ensures HandleMove(s, rules, id, user, uci, now, failing) == Step(s, [], Invalid(NotActiveReason))
  {
  }

  /** A paused session that is still "active" refuses every move as paused, and nothing changes. */
  lemma PausedGameRefusesMoves(s: Store, rules: Rules, id: GameId, user: UserId, uci: string,
                               now: Instant, failing: set<SocketId>)
    requires WellKeyed(s)
    requires Cached(s, id).Some? && Cached(s, id).value.status == ActiveStatus && Cached(s, id).value.paused
    ensures HandleMove(s, rules, id, user, uci, now, failing) == Step(s, [], Invalid(PausedReason))
  {
  }

  /**
   * A mating move finalizes the row but leaves the cached session "active"
   * (only timeout, resignation and draw by agreement rewrite the status).
   */
  lemma MateLeavesSessionActive(s: Store, rules: Rules, id: GameId, g: ActiveGame, uci: string,
                                now: Instant, failing: set<SocketId>)
    requires WellKeyed(s) && g.gameId == id && g.status == ActiveStatus
    requires Clock.UpdateTime(g, now).loser.None?
    requires rules.flags(rules.play(g.currentFen, uci).0).checkmate
    ensures Cached(Advance(s, rules, id, g, uci, now, failing).store, id).value.status == ActiveStatus
  {
  }
}
