/**
 * The clock display and the "minutes ago" label. JavaScript dates are
 * millisecond timestamps; reading an ISO string into one is a parameter
 * (`DateParser`), None standing for an invalid date, whose timestamp is NaN.
 */
module TimeFormats {
  import opened Wrappers
  import opened Text

  const MsPerMinute: int := 60_000

  /** `new Date(s).getTime()`: a timestamp in milliseconds, or None for NaN. */
  type DateParser = string -> Option<int>

  /** JavaScript's `n.toString().padStart(2, "0")` for an integer. */
  function Pad2(n: int): string {
    PadStart(IntToString(n), 2, '0')
  }

  /** Leading zeros do not change a decimal value. */
  lemma {:induction false} LeadingZero(t: string)
    requires AllDigits(t)
    ensures AllDigits("0" + t) && DigitsValue("0" + t) == DigitsValue(t)
    decreases |t|
  {
    var s := "0" + t;
    assert AllDigits(s) by { assert forall i :: 0 < i < |s| ==> s[i] == t[i - 1]; }
    if |t| > 0 {
      assert s[..|s| - 1] == "0" + t[..|t| - 1];
      LeadingZero(t[..|t| - 1]);
    }
  }

  lemma {:induction false} ZeroPadded(s: string, width: nat)
    requires AllDigits(s)
    ensures AllDigits(PadStart(s, width, '0')) && DigitsValue(PadStart(s, width, '0')) == DigitsValue(s)
    decreases width - |s|
  {
    if |s| < width {
      LeadingZero(s);
      ZeroPadded("0" + s, width);
    }
  }

  /** A natural number padded to two places reads back as itself; below 100 it takes exactly two characters. */
  lemma Pad2Value(n: nat)
    ensures AllDigits(Pad2(n)) && DigitsValue(Pad2(n)) == n
    ensures n < 100 ==> |Pad2(n)| == 2
  {
    var s := NatToString(n);
    assert IntToString(n) == s;
    NatToStringRoundTrip(n);
    ZeroPadded(s, 2);
    if n < 100 {
      ShortRendering(n);
    }
  }

  lemma ShortRendering(n: nat)
    requires n < 100
    ensures |NatToString(n)| <= 2
  {
    if n >= 10 {
      assert |NatToString(n / 10)| == 1;
    }
  }

  /**
   * `formatTime`: floored minutes and JavaScript's `%` remainder, each
   * padded to two places, around a ':'. Negative inputs keep their signs.
   */
  function FormatTime(seconds: int): (r: string)
    ensures seconds >= 0 ==> r == Pad2(seconds / 60) + ":" + Pad2(seconds % 60)
  {
    var secs := TruncRem(seconds, 60);
    assert seconds >= 0 ==> secs == seconds % 60 by {
      if seconds >= 0 {
        assert TruncDiv(seconds, 60) == seconds / 60;
      }
    }
    Pad2(seconds / 60) + ":" + Pad2(secs)
  }

  /**
   * `r` reads back as `seconds`: the digits before the last ':' are whole
   * minutes, the two after it are seconds from 00 to 59.
   */
  predicate ReadsBack(r: string, seconds: int) {
    && |r| >= 5 && r[|r| - 3] == ':'
    && AllDigits(r[..|r| - 3]) && AllDigits(r[|r| - 2..])
    && DigitsValue(r[|r| - 2..]) < 60
    && DigitsValue(r[..|r| - 3]) * 60 + DigitsValue(r[|r| - 2..]) == seconds
  }

  /** For a non-negative count the display reads back as that count. */
  lemma FormatTimeReadsBack(seconds: nat)
    ensures ReadsBack(FormatTime(seconds), seconds)
  {
    var m, s := seconds / 60, seconds % 60;
    var a, b := Pad2(m), Pad2(s);
    assert ReadsBack(a + ":" + b, seconds) by {
      Pad2Value(m);
      Pad2Value(s);
      ColonSplit(a, b);
    }
    assert FormatTime(seconds) == a + ":" + b;
  }

  lemma ColonSplit(a: string, b: string)
    requires |b| == 2
    ensures var r := a + ":" + b; r[..|r| - 3] == a && r[|r| - 2..] == b && r[|r| - 3] == ':'
  {
  }

  /** Exactly "mm:ss": five characters with the ':' in the middle. */
  predicate IsMinutesSeconds(r: string) {
    |r| == 5 && r[2] == ':'
  }

  /** Under 100 minutes the display is exactly "mm:ss". */
  lemma FormatTimeFiveChars(seconds: nat)
    requires seconds < 6000
    ensures IsMinutesSeconds(FormatTime(seconds))
  {
    var m := seconds / 60;
    assert m < 100;
    TwoPlaces(m, seconds % 60);
    assert FormatTime(seconds) == Pad2(m) + ":" + Pad2(seconds % 60);
  }

  lemma TwoPlaces(m: nat, s: nat)
    requires m < 100 && s < 100
    ensures IsMinutesSeconds(Pad2(m) + ":" + Pad2(s))
  {
    Pad2Value(m);
    Pad2Value(s);
  }

  /**
   * A negative count mixes floored minutes with a truncated remainder: the
   * seconds field lies in -59..0, and unless the count is a whole number of
   * minutes the two fields add up to one minute less than the count (so
   * -61 shows as "-2:-1").
   */
  lemma FormatTimeNegative(seconds: int)
    requires seconds < 0
    ensures var m, sec := seconds / 60, TruncRem(seconds, 60);
            && FormatTime(seconds) == Pad2(m) + ":" + Pad2(sec)
            && m < 0 && -60 < sec <= 0
            && m * 60 + sec == if seconds % 60 == 0 then seconds else seconds - 60
  {
    var q := TruncDiv(seconds, 60);
    if seconds % 60 == 0 {
      assert seconds / 60 == q;
    } else {
      assert seconds / 60 == q - 1;
    }
  }

  /** `Math.floor(ms / 60000)`. */
  function WholeMinutes(ms: int): int {
    ms / MsPerMinute
  }

  /** The "n minute(s) ago" wording for n >= 1. */
  function MinutesAgoText(n: nat): string {
    NatToString(n) + " minute" + (if n > 1 then "s" else "") + " ago"
  }

  /**
   * `getMinutesAgo`: "" without a time, "just now" until a full minute has
   * passed (including times in the future), then the whole minutes elapsed.
   * An unreadable time gives NaN, which fails the `<= 0` test.
   */
  function GetMinutesAgo(isoTime: Option<string>, parse: DateParser, nowMs: int): (r: string)
    ensures isoTime.None? || isoTime == Some("") ==> r == ""
    ensures isoTime.Some? && isoTime.value != "" && parse(isoTime.value).None? ==> r == "NaN minute ago"
    ensures isoTime.Some? && isoTime.value != "" && parse(isoTime.value).Some? ==>
              var elapsed := nowMs - parse(isoTime.value).value;
              && (r == "just now" <==> elapsed < MsPerMinute)
              && (elapsed >= MsPerMinute ==>
                    exists n: nat :: 1 <= n && n * MsPerMinute <= elapsed < (n + 1) * MsPerMinute && r == MinutesAgoText(n))
  {
    if isoTime.None? || isoTime.value == "" then ""
    else match parse(isoTime.value)
      case None => "NaN minute ago"
      case Some(start) =>
        var minutes := WholeMinutes(nowMs - start);
        if minutes <= 0 then "just now"
        else
          assert NatToString(minutes)[0] != 'j';
          MinutesAgoText(minutes)
  }
}
