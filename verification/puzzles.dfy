/**
 * Puzzle solving: looking a puzzle up, counting a play, and the rating
 * control flow of a solve, in which only the profile's active puzzle moves
 * the rating and earns a new active puzzle rated near the new rating. The
 * Elo formula is a parameter and the random pick is a seed.
 */
module Puzzles {
  import opened Wrappers
  import opened Ids
  import opened Records

  /** A `puzzles` row, with a whole-number rating. */
  datatype Puzzle = Puzzle(id: string, rating: int, timesPlayed: int)

  /** A `puzzle_solves` row. */
  datatype SolveRecord = SolveRecord(puzzleId: string, success: bool, ratingBefore: Option<int>,
                                     ratingAfter: Option<int>, ratingDelta: int)

  /** The puzzle table (ids are its primary key), one profile, and the solves recorded so far. */
  datatype PuzzleState = PuzzleState(puzzles: seq<Puzzle>, profile: Profile, solves: seq<SolveRecord>)

  /** The key under which a profile keeps its puzzle rating. */
  const PuzzleCategory: string := "puzzle"
  /** How far from the target rating a next puzzle may be, either way. */
  const RatingWindow: int := 100

  /** `get_puzzle_by_id`: the puzzle with that id, or HTTP 404. */
  function GetPuzzleById(puzzles: seq<Puzzle>, id: string): (r: Result<Puzzle>)
    ensures r.Success? <==> exists k :: 0 <= k < |puzzles| && puzzles[k].id == id
    ensures r.Success? ==> r.value in puzzles && r.value.id == id
  {
    if |puzzles| == 0 then Failure("HTTPException 404: Puzzle not found")
    else if puzzles[0].id == id then Success(puzzles[0])
    else
      var r := GetPuzzleById(puzzles[1..], id);
      assert forall k :: 0 < k < |puzzles| ==> puzzles[k] == puzzles[1..][k - 1];
      r
  }

  /** `sum_times_played`: one more play for the puzzle with that id; every other row is as it was. */
  function SumTimesPlayed(puzzles: seq<Puzzle>, id: string): (r: seq<Puzzle>)
    ensures |r| == |puzzles|
    ensures forall k :: 0 <= k < |r| ==>
              r[k] == if puzzles[k].id == id then puzzles[k].(timesPlayed := puzzles[k].timesPlayed + 1) else puzzles[k]
  {
    if |puzzles| == 0 then []
    else
      var p := puzzles[0];
      [if p.id == id then p.(timesPlayed := p.timesPlayed + 1) else p] + SumTimesPlayed(puzzles[1..], id)
  }

  /** The puzzles `get_puzzle_by_rating` may return: rated within 100 of the target, either way. */
  function Window(puzzles: seq<Puzzle>, rating: int): (r: seq<Puzzle>)
    ensures forall p :: p in r <==> p in puzzles && rating - RatingWindow <= p.rating <= rating + RatingWindow
  {
    if |puzzles| == 0 then []
    else
      var rest := Window(puzzles[1..], rating);
      assert forall p :: p in puzzles <==> p == puzzles[0] || p in puzzles[1..];
      if rating - RatingWindow <= puzzles[0].rating <= rating + RatingWindow then [puzzles[0]] + rest else rest
  }

  /** `get_puzzle_by_rating`: one of the window's puzzles, chosen by `seed`, or None when the window is empty. */
  function PuzzleByRating(puzzles: seq<Puzzle>, rating: int, seed: nat): (r: Option<Puzzle>)
    ensures r.None? <==> forall p :: p in puzzles ==> !(rating - RatingWindow <= p.rating <= rating + RatingWindow)
    ensures r.Some? ==> r.value in puzzles && rating - RatingWindow <= r.value.rating <= rating + RatingWindow
  {
    var w := Window(puzzles, rating);
    if |w| == 0 then None
    else
      assert w[seed % |w|] in w;
      Some(w[seed % |w|])
  }

  /** The reply of a solve. */
  datatype SolveReply = SolveReply(success: bool, ratingDelta: int, newRating: Option<int>,
                                   nextPuzzleId: Option<string>, ratingUpdated: bool)

  datatype Solved = Solved(state: PuzzleState, reply: Result<SolveReply>)

  /** Some puzzle of the table has id `id` and is rated within the window around `rating`. */
  predicate NearRating(puzzles: seq<Puzzle>, id: string, rating: int) {
    exists p :: p in puzzles && p.id == id && rating - RatingWindow <= p.rating <= rating + RatingWindow
  }

  /**
   * A rated solve's effect on the profile: the puzzle rating is now `after`,
   * and either a puzzle near `after` became the active one, or none is near
   * and the active puzzle stayed.
   */
  predicate MovesRatingTo(st: PuzzleState, r: Solved, after: int) {
    && r.reply.Success?
    && r.reply.value.newRating == Some(after)
    && r.state.profile.ratings == st.profile.ratings[PuzzleCategory := after]
    && (r.reply.value.nextPuzzleId.Some? ==>
          && r.state.profile.activePuzzleId == r.reply.value.nextPuzzleId
          && NearRating(r.state.puzzles, r.reply.value.nextPuzzleId.value, after))
    && (r.reply.value.nextPuzzleId.None? ==>
          && r.state.profile.activePuzzleId == st.profile.activePuzzleId
          && forall p :: p in r.state.puzzles ==> !(after - RatingWindow <= p.rating <= after + RatingWindow))
  }

  /** The rated branch of a solve: the new rating, and a next active puzzle near it when one exists. */
  function RatedSolve(st: PuzzleState, puzzles: seq<Puzzle>, puzzleId: string, success: bool,
                      before: int, delta: int, seed: nat): (r: Solved)
    ensures r.reply.Success?
    ensures r.state.puzzles == puzzles
    ensures r.reply.value == SolveReply(success, delta, Some(before + delta), r.reply.value.nextPuzzleId, true)
    ensures r.state.solves == st.solves + [SolveRecord(puzzleId, success, Some(before), Some(before + delta), delta)]
    ensures MovesRatingTo(st, r, before + delta)
  {
    var after := before + delta;
    var rated := st.profile.(ratings := st.profile.ratings[PuzzleCategory := after]);
    var record := SolveRecord(puzzleId, success, Some(before), Some(after), delta);
    match PuzzleByRating(puzzles, after, seed)
    case None =>
      Solved(PuzzleState(puzzles, rated, st.solves + [record]), Success(SolveReply(success, delta, Some(after), None, true)))
    case Some(next) =>
      Solved(PuzzleState(puzzles, rated.(activePuzzleId := Some(next.id)), st.solves + [record]),
             Success(SolveReply(success, delta, Some(after), Some(next.id), true)))
  }

  /** The puzzle rating a profile has, if any. */
  function PuzzleRating(profile: Profile): Option<int> {
    if PuzzleCategory in profile.ratings then Some(profile.ratings[PuzzleCategory]) else None
  }

  /**
   * `solve_puzzle_and_get_next`. The puzzle must exist (404, nothing
   * changes). Its play count goes up. Only when it is the profile's active
   * puzzle does the rating move, by the Elo delta, and is a next active
   * puzzle drawn from the window around the new rating; otherwise the delta
   * is 0 and the active puzzle stays. Either way one solve is recorded. A
   * profile without a puzzle rating cannot be rated (TypeError), and nothing
   * is committed.
   */
  function SolvePuzzleAndGetNext(st: PuzzleState, puzzleId: string, success: bool, seed: nat,
                                 elo: (int, int, bool) -> int): (r: Solved)
    ensures r.reply.Failure? <==>
              || GetPuzzleById(st.puzzles, puzzleId).Failure?
              || (st.profile.activePuzzleId == Some(puzzleId) && PuzzleRating(st.profile).None?)
    ensures r.reply.Failure? ==> r.state == st
    ensures r.reply.Success? ==>
              && r.state.puzzles == SumTimesPlayed(st.puzzles, puzzleId)
              && r.reply.value.ratingUpdated == (st.profile.activePuzzleId == Some(puzzleId))
              && r.reply.value.success == success
              && r.state.solves == st.solves + [SolveRecord(puzzleId, success, PuzzleRating(st.profile),
                                                            r.reply.value.newRating, r.reply.value.ratingDelta)]
    ensures r.reply.Success? && st.profile.activePuzzleId != Some(puzzleId) ==>
              && r.reply.value.ratingDelta == 0
              && r.reply.value.newRating == PuzzleRating(st.profile)
              && r.state.profile == st.profile
              && r.reply.value.nextPuzzleId == st.profile.activePuzzleId
  {
    match GetPuzzleById(st.puzzles, puzzleId)
    case Failure(e) => Solved(st, Failure(e))
    case Success(puzzle) =>
      var puzzles := SumTimesPlayed(st.puzzles, puzzleId);
      var before := PuzzleRating(st.profile);
      if st.profile.activePuzzleId != Some(puzzleId) then
        var record := SolveRecord(puzzleId, success, before, before, 0);
        Solved(PuzzleState(puzzles, st.profile, st.solves + [record]),
               Success(SolveReply(success, 0, before, st.profile.activePuzzleId, false)))
      else if before.None? then
        Solved(st, Failure("TypeError: unsupported operand type(s) for -: 'int' and 'NoneType'"))
      else
        var delta := elo(before.value, puzzle.rating, success);
        RatedSolve(st, puzzles, puzzleId, success, before.value, delta, seed)
  }

  /**
   * Solving the active puzzle moves the puzzle rating by the Elo delta for
   * the puzzle's rating and the outcome, and makes a puzzle near the new
   * rating the active one; when no puzzle is near, the active puzzle stays.
   */
  lemma ActiveSolveMovesRating(st: PuzzleState, puzzleId: string, success: bool, seed: nat, elo: (int, int, bool) -> int)
    requires st.profile.activePuzzleId == Some(puzzleId)
    requires GetPuzzleById(st.puzzles, puzzleId).Success? && PuzzleRating(st.profile).Some?
    ensures var before := PuzzleRating(st.profile).value;
            var after := before + elo(before, GetPuzzleById(st.puzzles, puzzleId).value.rating, success);
            MovesRatingTo(st, SolvePuzzleAndGetNext(st, puzzleId, success, seed, elo), after)
  {
    ActiveSolveIsRated(st, puzzleId, success, seed, elo);
  }

  lemma ActiveSolveIsRated(st: PuzzleState, puzzleId: string, success: bool, seed: nat, elo: (int, int, bool) -> int)
    requires st.profile.activePuzzleId == Some(puzzleId)
    requires GetPuzzleById(st.puzzles, puzzleId).Success? && PuzzleRating(st.profile).Some?
    ensures var before := PuzzleRating(st.profile).value;
            SolvePuzzleAndGetNext(st, puzzleId, success, seed, elo) ==
              RatedSolve(st, SumTimesPlayed(st.puzzles, puzzleId), puzzleId, success, before,
                         elo(before, GetPuzzleById(st.puzzles, puzzleId).value.rating, success), seed)
  {
  }

  /** Solving a puzzle that is not the active one twice in a row moves no rating and keeps the active puzzle. */
  lemma InactiveSolvesAreUnrated(st: PuzzleState, puzzleId: string, success: bool, seed: nat, elo: (int, int, bool) -> int)
    requires st.profile.activePuzzleId != Some(puzzleId)
    requires SolvePuzzleAndGetNext(st, puzzleId, success, seed, elo).reply.Success?
    ensures var once := SolvePuzzleAndGetNext(st, puzzleId, success, seed, elo).state;
            var twice := SolvePuzzleAndGetNext(once, puzzleId, success, seed, elo);
            && twice.reply.Success?
            && twice.state.profile == st.profile
            && |twice.state.solves| == |st.solves| + 2
  {
    var once := SolvePuzzleAndGetNext(st, puzzleId, success, seed, elo).state;
    var p :| p in st.puzzles && p.id == puzzleId;
    var k :| 0 <= k < |st.puzzles| && st.puzzles[k] == p;
    assert once.puzzles[k].id == puzzleId;
  }
}
