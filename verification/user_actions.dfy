/**
 * The in-game actions other than moving: resigning, offering and accepting a
 * draw, and chat. Each starts from the cached (or rebuilt) session and does
 * nothing when the game is missing or no longer "active"; chat does not look
 * at the session at all.
 */
module UserActions {
  import opened Wrappers
  import opened Ids
  import opened Sessions
  import opened Records
  import opened Live
  import GameRegistry
  import Text

  /** Whether a looked-up session exists and is still being played. */
  predicate Playing(found: Found) {
    found.game.Some? && found.game.value.status == ActiveStatus
  }

  /**
   * `handle_resign`: the white player resigning loses as white; any other
   * user is taken to be black. The session is stored with status
   * "resignation", the row completed, and both players told.
   */
  function HandleResign(s: Store, id: GameId, user: UserId, now: Instant, failing: set<SocketId>): (r: Step)
    requires WellKeyed(s)
    ensures Lookup(s, id).Failure? ==> r == Step(s, [], Fault(Lookup(s, id).error))
    ensures Lookup(s, id).Success? && !Playing(Lookup(s, id).value) ==> r == Step(Lookup(s, id).value.store, [], Done)
    ensures Lookup(s, id).Success? && Playing(Lookup(s, id).value) ==>
              var g := Lookup(s, id).value.game.value;
              var result := if user == g.whiteId then BlackWin else WhiteWin;
              && Cached(r.store, id) == Some(g.(status := TerminationName(Resignation)))
              && (r.reply == Done <==> id in s.db)
              && (id in s.db ==>
                    && id in r.store.db
                    && RecordsEnd(r.store.db[id], Some((result, Resignation)), g)
                    && r.sent == [Outbound(GameRegistry.Broadcast(s.conns, id, failing).to, GameOver(result, Resignation))])
    ensures WellKeyed(r.store)
  {
    match Lookup(s, id)
    case Failure(e) => Step(s, [], Fault(e))
    case Success(found) =>
      if !Playing(found) then Step(found.store, [], Done)
      else
        var g := found.game.value;
        var loser := if user == g.whiteId then White else Black;
        Finish(found.store, id, g, LossFor(loser), Resignation, now, failing)
  }

  /** The user `handle_draw_offer` notifies: white when black offers, black otherwise. */
  function OfferRecipient(g: ActiveGame, user: UserId): (o: UserId)
    ensures user == g.blackId ==> o == g.whiteId
    ensures user != g.blackId ==> o == g.blackId
  {
    if user == g.blackId then g.whiteId else g.blackId
  }

  /**
   * `handle_draw_offer`: records who offered and sends `draw_offer` straight
   * to the opponent's socket, if the opponent is connected; nobody else is
   * told. The send bypasses the registry, so a failing socket raises.
   */
  function HandleDrawOffer(s: Store, id: GameId, user: UserId, failing: set<SocketId>): (r: Step)
    requires WellKeyed(s)
    ensures Lookup(s, id).Failure? ==> r == Step(s, [], Fault(Lookup(s, id).error))
    ensures Lookup(s, id).Success? && !Playing(Lookup(s, id).value) ==> r == Step(Lookup(s, id).value.store, [], Done)
    ensures Lookup(s, id).Success? && Playing(Lookup(s, id).value) ==>
              var g := Lookup(s, id).value.game.value;
              var ws := GameRegistry.Get(s.conns, id, OfferRecipient(g, user));
              && Cached(r.store, id) == Some(g.(drawOfferBy := Some(user)))
              && r.store.db == s.db && r.store.conns == s.conns
              && (ws.None? ==> r.sent == [] && r.reply == Done)
              && (ws.Some? && ws.value !in failing ==> r.sent == [Outbound({ws.value}, DrawOffered(user))] && r.reply == Done)
              && (ws.Some? && ws.value in failing ==> r.sent == [] && r.reply.Fault?)
    ensures WellKeyed(r.store)
  {
    match Lookup(s, id)
    case Failure(e) => Step(s, [], Fault(e))
    case Success(found) =>
      if !Playing(found) then Step(found.store, [], Done)
      else
        var g := found.game.value;
        var s1 := Save(found.store, g.(drawOfferBy := Some(user)));
        match GameRegistry.Get(s1.conns, id, OfferRecipient(g, user))
        case None => Step(s1, [], Done)
        case Some(ws) =>
          if ws in failing then Step(s1, [], Fault("send_json on a closed socket"))
          else Step(s1, [Outbound({ws}, DrawOffered(user))], Done)
  }

  /**
   * `handle_draw_accept`: ends the game as a draw by agreement. It neither
   * asks whether a draw was offered nor who accepts, and leaves the recorded
   * offer in place.
   */
  function HandleDrawAccept(s: Store, id: GameId, now: Instant, failing: set<SocketId>): (r: Step)
    requires WellKeyed(s)
    ensures Lookup(s, id).Failure? ==> r == Step(s, [], Fault(Lookup(s, id).error))
    ensures Lookup(s, id).Success? && !Playing(Lookup(s, id).value) ==> r == Step(Lookup(s, id).value.store, [], Done)
    ensures Lookup(s, id).Success? && Playing(Lookup(s, id).value) ==>
              var g := Lookup(s, id).value.game.value;
              && Cached(r.store, id) == Some(g.(status := TerminationName(DrawAgreement)))
              && (r.reply == Done <==> id in s.db)
              && (id in s.db ==>
                    && id in r.store.db
                    && RecordsEnd(r.store.db[id], Some((Draw, DrawAgreement)), g)
                    && r.sent == [Outbound(GameRegistry.Broadcast(s.conns, id, failing).to, GameOver(Draw, DrawAgreement))])
    ensures WellKeyed(r.store)
  {
    match Lookup(s, id)
    case Failure(e) => Step(s, [], Fault(e))
    case Success(found) =>
      if !Playing(found) then Step(found.store, [], Done)
      else
        var g := found.game.value;
        Finish(found.store, id, g, Draw, DrawAgreement, now, failing)
  }

  /**
   * `handle_chat_message`: a message that is whitespace only is dropped;
   * otherwise its stripped text is broadcast with the sender's name. The
   * session is not consulted.
   */
  function HandleChatMessage(s: Store, id: GameId, username: Option<string>, message: string,
                             failing: set<SocketId>): (r: Step)
    ensures r.reply == Done && r.store.cache == s.cache && r.store.db == s.db
    ensures r.sent == [] <==> forall k :: 0 <= k < |message| ==> Text.IsPySpace(message[k])
    ensures r.sent == [] ==> r.store == s
    ensures r.sent != [] ==>
              && r.sent == [Outbound(GameRegistry.Broadcast(s.conns, id, failing).to, ChatMessage(username, Text.Strip(message)))]
              && |Text.Strip(message)| > 0
  {
    Text.StripEmptyIffBlank(message);
    if Text.Strip(message) == "" then Step(s, [], Done)
    else Broadcast(s, id, ChatMessage(username, Text.Strip(message)), failing)
  }

  /** Accepting a draw that was never offered still ends the game as a draw by agreement. */
  lemma DrawAcceptWithoutOffer(s: Store, id: GameId, now: Instant, failing: set<SocketId>)
    requires WellKeyed(s) && id in s.db
    requires Cached(s, id).Some? && Cached(s, id).value.status == ActiveStatus
    requires Cached(s, id).value.drawOfferBy.None?
    ensures HandleDrawAccept(s, id, now, failing).reply == Done
    ensures HandleDrawAccept(s, id, now, failing).store.db[id].result == Some(Draw)
  {
  }

  /** An offer is never withdrawn: after accepting, the session still names whoever offered last. */
  lemma OfferSurvivesAccept(s: Store, id: GameId, user: UserId, now: Instant, failing: set<SocketId>)
    requires WellKeyed(s)
    requires Cached(s, id).Some? && Cached(s, id).value.status == ActiveStatus
    requires HandleDrawOffer(s, id, user, failing).reply == Done
    ensures var offered := HandleDrawOffer(s, id, user, failing).store;
            Cached(HandleDrawAccept(offered, id, now, failing).store, id).value.drawOfferBy == Some(user)
  {
    var offered := HandleDrawOffer(s, id, user, failing).store;
    assert Cached(offered, id).value.status == ActiveStatus;
  }

  /** A finished game ignores resignations, draw offers and draw acceptances. */
  lemma FinishedGameIgnoresActions(s: Store, id: GameId, user: UserId, now: Instant, failing: set<SocketId>)
    requires WellKeyed(s)
    requires Cached(s, id).Some? && Cached(s, id).value.status != ActiveStatus
    ensures HandleResign(s, id, user, now, failing) == Step(s, [], Done)
    ensures HandleDrawOffer(s, id, user, failing) == Step(s, [], Done)
    ensures HandleDrawAccept(s, id, now, failing) == Step(s, [], Done)
  {
  }
}
