/**
 * `convertGameForUI`: the game history API's record turned into the summary
 * the profile pages list, always seen from white's side.
 */
module GameSummary {
  import opened Wrappers
  import opened Text
  import opened Sessions
  import opened Records

  datatype GamePlayer = GamePlayer(id: string, username: string)

  /** The API's game record, as far as the summary reads it. */
  datatype ApiGame = ApiGame(
    id: string,
    timeControlStr: string,
    endTime: string,
    result: Option<string>,
    termination: Option<string>,
    pgn: string,
    whiteRating: int,
    blackRating: int,
    whiteRatingChange: Option<int>,
    finalFen: string,
    whitePlayer: GamePlayer,
    blackPlayer: GamePlayer)

  datatype Outcome = Win | Loss | Drawn

  datatype SummaryOpponent = SummaryOpponent(id: string, username: string, rating: int)

  datatype Summary = Summary(
    id: string,
    timeControl: string,
    opponent: SummaryOpponent,
    playerColor: Color,
    result: Outcome,
    endReason: string,
    date: string,
    moves: nat,
    ratingChange: int,
    finalPosition: string)

  const UnknownEndReason: string := "unknown"

  /**
   * The summary: the opponent is black, with black's rating; a draw is
   * drawn, a white win is a win, and everything else, an unfinished game
   * included, is a loss; `moves` counts the pgn's lines; a missing rating
   * change is 0 and a missing or empty termination is "unknown".
   */
  function ConvertGameForUI(game: ApiGame): (r: Summary)
    ensures r.playerColor == White
    ensures r.opponent == SummaryOpponent(game.blackPlayer.id, game.blackPlayer.username, game.blackRating)
    ensures r.result == Drawn <==> game.result == Some("draw")
    ensures r.result == Win <==> game.result == Some("white_win")
    ensures r.moves == Occurrences(game.pgn, '\n') + 1
    ensures r.ratingChange == game.whiteRatingChange.GetOr(0)
    ensures r.endReason == UnknownEndReason <==> game.termination.None? || game.termination.value in {"", UnknownEndReason}
    ensures r.endReason != UnknownEndReason ==> Some(r.endReason) == game.termination
    ensures (r.id, r.timeControl, r.date, r.finalPosition) == (game.id, game.timeControlStr, game.endTime, game.finalFen)
  {
    var result := if game.result == Some("draw") then Drawn
                  else if game.result == Some("white_win") then Win
                  else Loss;
    var endReason := if game.termination.None? || game.termination.value == "" then UnknownEndReason
                     else game.termination.value;
    Summary(game.id, game.timeControlStr,
            SummaryOpponent(game.blackPlayer.id, game.blackPlayer.username, game.blackRating),
            White, result, endReason, game.endTime, |SplitOn(game.pgn, '\n')|,
            game.whiteRatingChange.GetOr(0), game.finalFen)
  }

  /**
   * For a stored result the summary's outcome is white's: a win exactly
   * when black lost, a loss exactly when white lost.
   */
  lemma OutcomeIsWhites(game: ApiGame, res: GameResult)
    requires game.result == Some(ResultName(res))
    ensures ConvertGameForUI(game).result == Win <==> res == LossFor(Black)
    ensures ConvertGameForUI(game).result == Loss <==> res == LossFor(White)
  {
  }

  /** A game that has no result yet is listed as a loss. */
  lemma UnfinishedGameIsLoss(game: ApiGame)
    requires game.result.None?
    ensures ConvertGameForUI(game).result == Loss
  {
  }

  /** A pgn written as lines counts one move per line, and an empty pgn counts one. */
  lemma MovesCountLines(game: ApiGame, lines: seq<string>)
    requires |lines| > 0
    requires forall i :: 0 <= i < |lines| ==> '\n' !in lines[i]
    requires game.pgn == Join(lines, '\n')
    ensures ConvertGameForUI(game).moves == |lines|
  {
    SplitJoin(lines, '\n');
  }
}
