/**
 * The game card's helpers: the relative age of a game, the PGN-style result
 * badge and the colour of a player's title.
 */
module GameCard {
  import opened Wrappers
  import opened Text
  import opened TimeFormats
  import opened Records

  const MsPerHour: int := 60 * MsPerMinute
  const MsPerDay: int := 24 * MsPerHour

  /** Floored minutes, then floored hours of those, equal floored hours of the milliseconds. */
  lemma NestedFloor(ms: int)
    ensures WholeMinutes(ms) / 60 == ms / MsPerHour
    ensures WholeMinutes(ms) / 60 / 24 == ms / MsPerDay
  {
    var q := ms / MsPerHour;
    assert q * MsPerHour <= ms < (q + 1) * MsPerHour;
    assert q * 60 * MsPerMinute <= ms < (q * 60 + 60) * MsPerMinute;
    assert q * 60 <= WholeMinutes(ms) < q * 60 + 60;
    var d := ms / MsPerDay;
    assert d * 24 * MsPerHour <= ms < (d * 24 + 24) * MsPerHour;
    assert d * 24 <= q < d * 24 + 24;
  }

  /**
   * `formatRelativeTime`: "Just now" under a minute (the future included),
   * then whole minutes below an hour, whole hours below a day, and whole
   * days after that, "day" taking an 's' only past one. An unreadable date
   * is NaN, which fails every comparison and reaches the last line.
   */
  function FormatRelativeTime(date: string, parse: DateParser, nowMs: int): (r: string)
    ensures parse(date).None? ==> r == "NaN day ago"
    ensures parse(date).Some? ==>
              var elapsed := nowMs - parse(date).value;
              && (r == "Just now" <==> elapsed < MsPerMinute)
              && (MsPerMinute <= elapsed < MsPerHour ==>
                    exists n: nat :: 1 <= n < 60 && n * MsPerMinute <= elapsed < (n + 1) * MsPerMinute
                                     && r == NatToString(n) + " min ago")
              && (MsPerHour <= elapsed < MsPerDay ==>
                    exists n: nat :: 1 <= n < 24 && n * MsPerHour <= elapsed < (n + 1) * MsPerHour
                                     && r == NatToString(n) + " hr ago")
              && (MsPerDay <= elapsed ==>
                    exists n: nat :: 1 <= n && n * MsPerDay <= elapsed < (n + 1) * MsPerDay
                                     && r == NatToString(n) + (if n > 1 then " days ago" else " day ago"))
  {
    match parse(date)
    case None => "NaN day ago"
    case Some(t) =>
      var minutes := WholeMinutes(nowMs - t);
      NestedFloor(nowMs - t);
      if minutes < 1 then "Just now"
      else if minutes < 60 then
        assert NatToString(minutes)[0] != 'J';
        NatToString(minutes) + " min ago"
      else if minutes / 60 < 24 then
        var text := NatToString(minutes / 60) + " hr ago";
        assert text[0] == NatToString(minutes / 60)[0] != 'J';
        text
      else
        var days := minutes / 60 / 24;
        assert NatToString(days)[0] != 'J';
        NatToString(days) + " day" + (if days > 1 then "s" else "") + " ago"
  }

  /** A result badge: its text and its styling classes. */
  datatype Badge = Badge(text: string, className: string)

  /** `getPgnResult`: "draw" and "white_win" have their own badges; every other string shows as a black win. */
  function GetPgnResult(result: string): (r: Badge)
    ensures r.text == "½-½" <==> result == "draw"
    ensures r.text == "1-0" <==> result == "white_win"
    ensures r.text == "0-1" <==> result != "draw" && result != "white_win"
  {
    if result == "draw" then Badge("½-½", "bg-yellow-500/20 text-yellow-400")
    else if result == "white_win" then Badge("1-0", "bg-white text-slate-900 font-semibold border border-slate-200")
    else Badge("0-1", "bg-slate-900 text-white font-semibold border border-slate-700")
  }

  /** The score a finished game records for white, then black, in halves. */
  function HalfPoints(r: GameResult): (h: (nat, nat))
    ensures h.0 + h.1 == 2
  {
    match r
    case WhiteWin => (2, 0)
    case BlackWin => (0, 2)
    case Draw => (1, 1)
  }

  /** One side's score written out: "1", "½" or "0". */
  function HalfText(halves: nat): string {
    if halves >= 2 then "1" else if halves == 1 then "½" else "0"
  }

  /** A score in PGN notation, white's part first. */
  function ScoreText(h: (nat, nat)): string {
    HalfText(h.0) + "-" + HalfText(h.1)
  }

  /** The badge of every stored result is that result's score in PGN notation. */
  lemma PgnResultShowsScore(r: GameResult)
    ensures GetPgnResult(ResultName(r)).text == ScoreText(HalfPoints(r))
  {
    match r
    case WhiteWin => assert ScoreText((2, 0)) == "1-0";
    case BlackWin => assert ScoreText((0, 2)) == "0-1";
    case Draw => assert ScoreText((1, 1)) == "½-½";
  }

  /** Different stored results get different badges, so the badge tells the result. */
  lemma BadgeTellsResult(r: GameResult, r': GameResult)
    ensures GetPgnResult(ResultName(r)).text == GetPgnResult(ResultName(r')).text <==> r == r'
  {
    PgnResultShowsScore(r);
    PgnResultShowsScore(r');
  }

  /** The rank a title code stands for, under its English or Spanish abbreviation. */
  datatype TitleRank = Untitled | Grandmaster | InternationalMaster | FideMaster | OtherTitle

  function RankOf(title: Option<string>): TitleRank {
    match title
    case None => Untitled
    case Some(t) =>
      if t == "" then Untitled
      else if t in {"GM", "GP"} then Grandmaster
      else if t in {"IM", "PI"} then InternationalMaster
      else if t in {"FM", "FP"} then FideMaster
      else OtherTitle
  }

  /** `getTitleColor`: nothing for a missing or empty title, one colour per rank (English and Spanish spellings), slate otherwise. */
  function GetTitleColor(title: Option<string>): (r: string)
    ensures r == "" <==> title.None? || title.value == ""
    ensures title == Some("GM") || title == Some("GP") <==> r == "text-yellow-500"
    ensures title == Some("IM") || title == Some("PI") <==> r == "text-blue-400"
    ensures title == Some("FM") || title == Some("FP") <==> r == "text-green-400"
    ensures title.Some? && title.value !in {"", "GM", "GP", "IM", "PI", "FM", "FP"} <==> r == "text-slate-400"
  {
    match title
    case None => ""
    case Some(t) =>
      if t == "" then ""
      else if t == "GM" || t == "GP" then "text-yellow-500"
      else if t == "IM" || t == "PI" then "text-blue-400"
      else if t == "FM" || t == "FP" then "text-green-400"
      else "text-slate-400"
  }

  /**
   * Two titles get the same colour exactly when they stand for the same
   * rank: the two spellings of a rank agree, and the five colours tell the
   * ranks apart.
   */
  lemma SameColourIffSameRank(a: Option<string>, b: Option<string>)
    ensures GetTitleColor(a) == GetTitleColor(b) <==> RankOf(a) == RankOf(b)
  {
  }
}
