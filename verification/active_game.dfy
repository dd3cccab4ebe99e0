/**
 * The live-game session record (`ActiveGame`) and the player colours, as the
 * schema declares them: required identity, position, clock and rating fields,
 * and defaults for the history, draw-offer, liveness and status fields.
 */
module Sessions {
  import opened Wrappers
  import opened Ids

  /** `PlayerColor`: exactly two values. */
  datatype Color = White | Black

  function Opponent(c: Color): (o: Color)
    ensures o != c
    ensures o == White <==> c == Black
  {
    match c
    case White => Black
    case Black => White
  }

  /** The string value of each colour. */
  function ColorName(c: Color): string {
    if c == White then "white" else "black"
  }

  /** The position every game starts from. */
  const StartFen: string := "rnbqkbnr/pppppppp/8/8/8/8/PPPPPPPP/RNBQKBNR w KQkq - 0 1"

  /** The value of `status` while a game is being played. */
  const ActiveStatus: string := "active"

  /**
   * `ActiveGame`. Clocks, time control and ratings are whole numbers
   * (seconds, Elo points); `status` is a free string whose live value is
   * "active" and whose terminal values are termination names.
   */
  datatype ActiveGame = ActiveGame(
    gameId: GameId,
    whiteId: UserId,
    blackId: UserId,
    currentFen: string,
    turn: Color,
    initialTime: int,
    increment: int,
    timeControlStr: string,
    whiteTimeRemaining: int,
    blackTimeRemaining: int,
    lastMoveTimestamp: Option<Instant>,
    movesSan: seq<string>,
    movesUci: seq<string>,
    drawOfferBy: Option<UserId>,
    disconnectedPlayers: seq<UserId>,
    paused: bool,
    status: string,
    whiteRating: int,
    blackRating: int)
  {
    /** The remaining time of colour `c`. */
    function Remaining(c: Color): int {
      if c == White then whiteTimeRemaining else blackTimeRemaining
    }

    /** The same session with colour `c`'s remaining time set to `t`. */
    function WithRemaining(c: Color, t: int): (g: ActiveGame)
      ensures g.Remaining(c) == t
      ensures g.Remaining(Opponent(c)) == Remaining(Opponent(c))
      ensures g.(whiteTimeRemaining := whiteTimeRemaining, blackTimeRemaining := blackTimeRemaining) == this
    {
      if c == White then this.(whiteTimeRemaining := t) else this.(blackTimeRemaining := t)
    }

    /** The user who plays colour `c`. */
    function PlayerOf(c: Color): UserId {
      if c == White then whiteId else blackId
    }
  }

  /** The field defaults of a freshly built session. */
  predicate HasDefaults(g: ActiveGame) {
    && g.lastMoveTimestamp.None?
    && g.movesSan == [] && g.movesUci == []
    && g.drawOfferBy.None?
    && g.disconnectedPlayers == []
    && !g.paused
    && g.status == ActiveStatus
  }

  /**
   * Building an `ActiveGame` from its required fields: the optional ones take
   * their schema defaults.
   */
  function NewActiveGame(
    gameId: GameId, whiteId: UserId, blackId: UserId,
    currentFen: string, turn: Color,
    initialTime: int, increment: int, timeControlStr: string,
    whiteTimeRemaining: int, blackTimeRemaining: int,
    whiteRating: int, blackRating: int): (g: ActiveGame)
    ensures HasDefaults(g)
    ensures g.gameId == gameId && g.whiteId == whiteId && g.blackId == blackId
    ensures g.currentFen == currentFen && g.turn == turn
    ensures g.initialTime == initialTime && g.increment == increment
    ensures g.timeControlStr == timeControlStr
    ensures g.Remaining(White) == whiteTimeRemaining && g.Remaining(Black) == blackTimeRemaining
    ensures g.whiteRating == whiteRating && g.blackRating == blackRating
  {
    ActiveGame(gameId, whiteId, blackId, currentFen, turn,
               initialTime, increment, timeControlStr,
               whiteTimeRemaining, blackTimeRemaining,
               None, [], [], None, [], false, ActiveStatus,
               whiteRating, blackRating)
  }
}
