/**
 * The durable records the live core reads and writes: the `games` row with its
 * status, result and termination enums, and a player's `profiles` row.
 */
module Records {
  import opened Wrappers
  import opened Ids
  import opened Sessions
  import Text

  datatype GameStatus = Pending | Active | Completed | Aborted

  datatype GameResult = WhiteWin | BlackWin | Draw

  datatype Termination =
    | Checkmate | Resignation | Timeout | DrawAgreement
    | Stalemate | InsufficientMaterial | FiftyMoveRule | ThreefoldRepetition

  /** The string value of each `GameResult`. */
  function ResultName(r: GameResult): string {
    match r
    case WhiteWin => "white_win"
    case BlackWin => "black_win"
    case Draw => "draw"
  }

  /** The string value of each `GameTermination`, which is also a finished session's `status`. */
  function TerminationName(t: Termination): string {
    match t
    case Checkmate => "checkmate"
    case Resignation => "resignation"
    case Timeout => "timeout"
    case DrawAgreement => "draw_agreement"
    case Stalemate => "stalemate"
    case InsufficientMaterial => "insufficient_material"
    case FiftyMoveRule => "fifty_move_rule"
    case ThreefoldRepetition => "threefold_repetition"
  }

  /** The result in which colour `loser` loses. */
  function LossFor(loser: Color): (r: GameResult)
    ensures r != Draw
    ensures (r == WhiteWin) <==> loser == Black
  {
    match loser
    case White => BlackWin
    case Black => WhiteWin
  }

  /** The result in which colour `c` wins. */
  function WinFor(c: Color): (r: GameResult)
    ensures r == LossFor(Opponent(c))
  {
    match c
    case White => WhiteWin
    case Black => BlackWin
  }

  /** A `games` row. Nullable columns are options. */
  datatype GameRow = GameRow(
    id: GameId,
    whiteId: UserId,
    blackId: UserId,
    timeControl: string,
    timeControlStr: string,
    startTime: Instant,
    endTime: Option<Instant>,
    status: GameStatus,
    result: Option<GameResult>,
    termination: Option<Termination>,
    initialFen: string,
    finalFen: Option<string>,
    pgn: Option<string>,
    whiteRating: int,
    blackRating: int,
    whiteRatingChange: Option<int>,
    blackRatingChange: Option<int>)

  type Db = map<GameId, GameRow>

  /**
   * The PGN column: the SAN moves joined by newlines. No moves give "", and
   * a non-empty list of single-line moves splits back into itself.
   */
  function Pgn(movesSan: seq<string>): (p: string)
    ensures movesSan == [] ==> p == ""
    ensures |movesSan| > 0 && (forall i :: 0 <= i < |movesSan| ==> '\n' !in movesSan[i]) ==>
              Text.SplitOn(p, '\n') == movesSan
  {
    if |movesSan| > 0 && forall i :: 0 <= i < |movesSan| ==> '\n' !in movesSan[i] then
      Text.SplitJoin(movesSan, '\n');
      Text.Join(movesSan, '\n')
    else Text.Join(movesSan, '\n')
  }

  /**
   * The row write shared by every terminal path: status completed, the
   * result, termination, final position, move list and end time; the rating
   * columns are left as they were.
   */
  function CompletedRow(row: GameRow, result: Option<GameResult>, termination: Option<Termination>,
                        finalFen: string, movesSan: seq<string>, now: Instant): (r: GameRow)
    ensures r.status == Completed && r.result == result && r.termination == termination
    ensures r.finalFen == Some(finalFen) && r.pgn == Some(Pgn(movesSan)) && r.endTime == Some(now)
    ensures r.(status := row.status, result := row.result, termination := row.termination,
               finalFen := row.finalFen, pgn := row.pgn, endTime := row.endTime) == row
  {
    row.(status := Completed, result := result, termination := termination,
         finalFen := Some(finalFen), pgn := Some(Pgn(movesSan)), endTime := Some(now))
  }

  /**
   * Writes the completed row for game `id`; fetching a row that does not exist
   * gives `None`, whose attribute assignment raises.
   */
  function FinalizeRow(db: Db, id: GameId, result: Option<GameResult>, termination: Option<Termination>,
                       finalFen: string, movesSan: seq<string>, now: Instant): (r: Result<Db>)
    ensures r.Success? <==> id in db
    ensures r.Success? ==> r.value == db[id := CompletedRow(db[id], result, termination, finalFen, movesSan, now)]
  {
    if id !in db then Failure("AttributeError: 'NoneType' object has no attribute 'status'")
    else Success(db[id := CompletedRow(db[id], result, termination, finalFen, movesSan, now)])
  }

  /** A `profiles` row: ratings per time-control name, game counters and the active puzzle. */
  datatype Profile = Profile(
    ratings: map<string, int>,
    totalGames: int,
    wins: int,
    losses: int,
    draws: int,
    activePuzzleId: Option<string>)

  type Profiles = map<UserId, Profile>

  /** `get_profile_by_user_id`: the profile, or an HTTP 404 when there is none. */
  function ProfileOf(profiles: Profiles, user: UserId): (r: Result<Profile>)
    ensures r.Success? <==> user in profiles
    ensures r.Success? ==> r.value == profiles[user]
  {
    if user in profiles then Success(profiles[user]) else Failure("HTTPException 404: Profile not found")
  }
}
