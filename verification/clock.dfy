/**
 * The clock engine: charging the side to move for the whole seconds elapsed
 * since the last move, adding the increment, and peeking at a timeout without
 * touching the session. "Now" is a parameter.
 */
module Clock {
  import opened Wrappers
  import opened Ids
  import opened Sessions
  import Text

  /** `int((now - since).total_seconds())`: whole seconds, truncated toward zero. */
  function ElapsedSeconds(since: Instant, now: Instant): (e: int)
    ensures now >= since ==> e >= 0 && e * MicrosPerSecond <= now - since < (e + 1) * MicrosPerSecond
    ensures now < since ==> e <= 0
  {
    Text.TruncDiv(now - since, MicrosPerSecond)
  }

  /** The session after a tick and the colour that ran out of time, if any. */
  datatype Tick = Tick(game: ActiveGame, loser: Option<Color>)

  /**
   * `update_time`. Before the first move it only starts the clock. Afterwards
   * the side to move is charged the elapsed whole seconds, and loses when its
   * time is then zero or less; the timestamp itself is not advanced here.
   */
  function UpdateTime(g: ActiveGame, now: Instant): (r: Tick)
    ensures g.lastMoveTimestamp.None? ==> r.game == g.(lastMoveTimestamp := Some(now)) && r.loser.None?
    ensures g.lastMoveTimestamp.Some? ==>
              && r.game.Remaining(g.turn) == g.Remaining(g.turn) - ElapsedSeconds(g.lastMoveTimestamp.value, now)
              && r.game.Remaining(Opponent(g.turn)) == g.Remaining(Opponent(g.turn))
              && r.game.(whiteTimeRemaining := g.whiteTimeRemaining, blackTimeRemaining := g.blackTimeRemaining) == g
    ensures r.loser.Some? ==> r.loser == Some(g.turn)
    ensures g.lastMoveTimestamp.Some? ==> (r.loser.Some? <==> r.game.Remaining(g.turn) <= 0)
  {
    match g.lastMoveTimestamp
    case None => Tick(g.(lastMoveTimestamp := Some(now)), None)
    case Some(since) =>
      var left := g.Remaining(g.turn) - ElapsedSeconds(since, now);
      Tick(g.WithRemaining(g.turn, left), if left <= 0 then Some(g.turn) else None)
  }

  /** `apply_increment`: the increment goes to the colour in `turn`, and nothing else changes. */
  function ApplyIncrement(g: ActiveGame): (r: ActiveGame)
    ensures r.Remaining(g.turn) == g.Remaining(g.turn) + g.increment
    ensures r.Remaining(Opponent(g.turn)) == g.Remaining(Opponent(g.turn))
    ensures r.(whiteTimeRemaining := g.whiteTimeRemaining, blackTimeRemaining := g.blackTimeRemaining) == g
  {
    g.WithRemaining(g.turn, g.Remaining(g.turn) + g.increment)
  }

  /**
   * A move's clock work (the tick, then the increment) keeps the books: the
   * two clocks together lose exactly the whole seconds elapsed and gain
   * exactly the increment, all of it on the mover's side; with no increment
   * the second step changes nothing.
   */
  lemma TickThenIncrementBalances(g: ActiveGame, now: Instant)
    requires g.lastMoveTimestamp.Some?
    ensures var r := ApplyIncrement(UpdateTime(g, now).game);
            && r.whiteTimeRemaining + r.blackTimeRemaining
                 == g.whiteTimeRemaining + g.blackTimeRemaining - ElapsedSeconds(g.lastMoveTimestamp.value, now) + g.increment
            && r.Remaining(Opponent(g.turn)) == g.Remaining(Opponent(g.turn))
    ensures g.increment == 0 ==> ApplyIncrement(g) == g
  {
  }

  /**
   * `get_timeout_loser`: whether the side to move would have no time left
   * now. It returns a colour, not a session, so it cannot change one.
   */
  function GetTimeoutLoser(g: ActiveGame, now: Instant): (r: Option<Color>)
    ensures g.lastMoveTimestamp.None? ==> r.None?
    ensures r.Some? ==> r == Some(g.turn)
    ensures g.lastMoveTimestamp.Some? ==>
              (r.Some? <==> g.Remaining(g.turn) - ElapsedSeconds(g.lastMoveTimestamp.value, now) <= 0)
  {
    match g.lastMoveTimestamp
    case None => None
    case Some(since) =>
      if g.Remaining(g.turn) - ElapsedSeconds(since, now) <= 0 then Some(g.turn) else None
  }

  /** Peek and tick agree: for the same instant the peek names exactly the loser the tick would report. */
  lemma PeekAgreesWithTick(g: ActiveGame, now: Instant)
    ensures GetTimeoutLoser(g, now) == UpdateTime(g, now).loser
  {
  }

  /** The colour not to move keeps its time through a tick. */
  lemma TickSparesWaitingSide(g: ActiveGame, now: Instant)
    ensures UpdateTime(g, now).game.Remaining(Opponent(g.turn)) == g.Remaining(Opponent(g.turn))
  {
  }

  /** With the clock running forward, a tick never adds time to the side to move. */
  lemma TickNeverAddsTime(g: ActiveGame, now: Instant)
    requires g.lastMoveTimestamp.Some? && now >= g.lastMoveTimestamp.value
    ensures UpdateTime(g, now).game.Remaining(g.turn) <= g.Remaining(g.turn)
    ensures UpdateTime(g, now).game.Remaining(g.turn) > g.Remaining(g.turn) - (now - g.lastMoveTimestamp.value) / MicrosPerSecond - 1
  {
  }
}
