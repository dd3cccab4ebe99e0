/**
 * Time controls: the closed set of "M+I" keys a player may queue for, and the
 * parser that turns one into (initial seconds, increment seconds), including
 * Python's own rules for what `int()` accepts.
 */
module TimeControls {
  import opened Wrappers
  import opened Text

  /** The values of the `TimeControl` enum, in declaration order. */
  const TimeControlValues: seq<string> :=
    ["1+0", "1+1", "2+1", "3+0", "3+2", "5+0",
     "10+0", "10+5", "15+10", "30+0", "30+20", "30+30"]

  predicate IsTimeControl(s: string) {
    s in TimeControlValues
  }

  // ---------------------------------------------------------------------------
  // Python's int() on a string

  /** Decimal digits, optionally grouped by single underscores that sit between two digits. */
  predicate IsDigitGroups(b: string) {
    && |b| > 0
    && IsDigit(b[0])
    && IsDigit(b[|b| - 1])
    && (forall k :: 0 <= k < |b| ==> IsDigit(b[k]) || b[k] == '_')
    && (forall k :: 0 <= k < |b| - 1 ==> b[k] == '_' ==> b[k + 1] != '_')
  }

  function WithoutUnderscores(b: string): (d: string)
    requires forall k :: 0 <= k < |b| ==> IsDigit(b[k]) || b[k] == '_'
    ensures AllDigits(d)
    ensures AllDigits(b) ==> d == b
  {
    if |b| == 0 then ""
    else (if b[0] == '_' then "" else [b[0]]) + WithoutUnderscores(b[1..])
  }

  /** A literal `int()` accepts once surrounding whitespace is gone: an optional sign, then digit groups. */
  predicate IsIntLiteral(t: string) {
    || IsDigitGroups(t)
    || (|t| > 0 && (t[0] == '+' || t[0] == '-') && IsDigitGroups(t[1..]))
  }

  /** The value a literal denotes. */
  function LiteralValue(t: string): int
    requires IsIntLiteral(t)
  {
    if IsDigitGroups(t) then DigitsValue(WithoutUnderscores(t))
    else if t[0] == '-' then -(DigitsValue(WithoutUnderscores(t[1..])) as int)
    else DigitsValue(WithoutUnderscores(t[1..]))
  }

  /**
   * Python's `int(s)` in base 10: surrounding whitespace is ignored, and
   * anything that is not a literal raises ValueError.
   */
  function PyInt(s: string): (r: Result<int>)
    ensures r.Success? <==> IsIntLiteral(Strip(s))
    ensures r.Success? ==> r.value == LiteralValue(Strip(s))
  {
    var t := Strip(s);
    if |t| == 0 then Failure("ValueError: invalid literal for int() with base 10")
    else if t[0] == '+' || t[0] == '-' then
      if IsDigitGroups(t[1..]) then
        var magnitude: int := DigitsValue(WithoutUnderscores(t[1..]));
        Success(if t[0] == '-' then -magnitude else magnitude)
      else Failure("ValueError: invalid literal for int() with base 10")
    else if IsDigitGroups(t) then Success(DigitsValue(WithoutUnderscores(t)))
    else Failure("ValueError: invalid literal for int() with base 10")
  }

  lemma PyIntOfRendering(n: nat)
    ensures PyInt(NatToString(n)) == Success(n)
  {
    var s := NatToString(n);
    assert IsDigitGroups(s);
    StripUntrimmed(s);
    NatToStringRoundTrip(n);
  }

  // ---------------------------------------------------------------------------
  // parse_time_control

  /**
   * `parse_time_control`: strip, split on '+', which must give exactly two
   * parts, and read minutes and increment with `int()`; every failure is a
   * ValueError. The result is (minutes * 60, increment).
   */
  function ParseTimeControl(tc: string): (r: Result<(int, int)>)
    ensures Occurrences(Strip(tc), '+') != 1 ==> r.Failure?
    ensures r.Success? <==>
              var parts := SplitOn(Strip(tc), '+');
              && |parts| == 2
              && IsIntLiteral(Strip(parts[0])) && IsIntLiteral(Strip(parts[1]))
    ensures r.Success? ==>
              var parts := SplitOn(Strip(tc), '+');
              && |parts| == 2
              && r.value == (LiteralValue(Strip(parts[0])) * 60, LiteralValue(Strip(parts[1])))
  {
    var parts := SplitOn(Strip(tc), '+');
    if |parts| != 2 then Failure("ValueError: time_control must look like '5+3'")
    else
      var minutes :- PyInt(parts[0]);
      var increment :- PyInt(parts[1]);
      Success((minutes * 60, increment))
  }

  /** "M+I" written in decimal parses to (M * 60, I). */
  lemma ParseRendered(m: nat, i: nat)
    ensures ParseTimeControl(NatToString(m) + "+" + NatToString(i)) == Success((m * 60, i))
  {
    var a, b := NatToString(m), NatToString(i);
    var s := a + "+" + b;
    assert '+' !in a by { assert forall k :: 0 <= k < |a| ==> IsDigit(a[k]); }
    assert '+' !in b by { assert forall k :: 0 <= k < |b| ==> IsDigit(b[k]); }
    assert !IsPySpace(s[0]) by { assert s[0] == a[0]; }
    assert !IsPySpace(s[|s| - 1]) by { assert s[|s| - 1] == b[|b| - 1]; }
    StripUntrimmed(s);
    assert s == Join([a, b], '+');
    SplitJoin([a, b], '+');
    PyIntOfRendering(m);
    PyIntOfRendering(i);
  }

  /** Python's strip removes exactly the whitespace around the first and last non-space characters. */
  lemma StripDetermined(s: string, i: nat, j: nat)
    requires i <= j <= |s|
    requires forall k :: 0 <= k < i ==> IsPySpace(s[k])
    requires forall k :: j <= k < |s| ==> IsPySpace(s[k])
    requires i < j ==> !IsPySpace(s[i]) && !IsPySpace(s[j - 1])
    ensures Strip(s) == s[i..j]
  {
    if i == j {
      StripEmptyIffBlank(s);
    } else {
      var lo := LeadingSpace(s, 0);
      assert lo == i by {
        if lo < i { assert false; }
        if lo > i { assert false; }
      }
      var hi := TrailingSpace(s, |s|, lo);
      assert hi == j by {
        if hi < j { assert false; }
        if hi > j { assert false; }
      }
    }
  }

  /** Whitespace around a string does not change what it strips to. */
  lemma StripPadded(pre: string, tc: string, post: string)
    requires forall k :: 0 <= k < |pre| ==> IsPySpace(pre[k])
    requires forall k :: 0 <= k < |post| ==> IsPySpace(post[k])
    ensures Strip(pre + tc + post) == Strip(tc)
  {
    var i := LeadingSpace(tc, 0);
    var j := TrailingSpace(tc, |tc|, i);
    var s := pre + tc + post;
    var i', j' := |pre| + i, |pre| + j;
    if i == j {
      StripEmptyIffBlank(tc);
    }
    assert forall k :: 0 <= k < i' ==> IsPySpace(s[k]) by {
      forall k | 0 <= k < i' ensures IsPySpace(s[k]) {
        if k < |pre| { assert s[k] == pre[k]; } else { assert s[k] == tc[k - |pre|]; }
      }
    }
    assert forall k :: j' <= k < |s| ==> IsPySpace(s[k]) by {
      forall k | j' <= k < |s| ensures IsPySpace(s[k]) {
        if k < |pre| + |tc| { assert s[k] == tc[k - |pre|]; } else { assert s[k] == post[k - |pre| - |tc|]; }
      }
    }
    assert s[i'..j'] == tc[i..j];
    StripDetermined(s, i', j');
  }

  /** Whitespace around a time control does not change how it parses. */
  lemma ParseIgnoresSurroundingSpace(pre: string, tc: string, post: string)
    requires forall k :: 0 <= k < |pre| ==> IsPySpace(pre[k])
    requires forall k :: 0 <= k < |post| ==> IsPySpace(post[k])
    ensures ParseTimeControl(pre + tc + post) == ParseTimeControl(tc)
  {
    StripPadded(pre, tc, post);
  }

  /** Every enum value parses, to between one and thirty minutes and an increment of at most thirty seconds. */
  lemma AllTimeControlsParse()
    ensures forall tc :: tc in TimeControlValues ==>
              && ParseTimeControl(tc).Success?
              && 60 <= ParseTimeControl(tc).value.0 <= 1800
              && 0 <= ParseTimeControl(tc).value.1 <= 30
  {
    forall tc | tc in TimeControlValues
      ensures ParseTimeControl(tc).Success?
      ensures 60 <= ParseTimeControl(tc).value.0 <= 1800
      ensures 0 <= ParseTimeControl(tc).value.1 <= 30
    {
      var m, i := EnumParts(tc);
      ParseRendered(m, i);
    }
  }

  /** Each enum value is the rendering of its minutes and increment. */
  lemma EnumParts(tc: string) returns (m: nat, i: nat)
    requires tc in TimeControlValues
    ensures tc == NatToString(m) + "+" + NatToString(i)
    ensures 1 <= m <= 30 && i <= 30
  {
    if tc == "1+0" { m, i := 1, 0; }
    else if tc == "1+1" { m, i := 1, 1; }
    else if tc == "2+1" { m, i := 2, 1; }
    else if tc == "3+0" { m, i := 3, 0; }
    else if tc == "3+2" { m, i := 3, 2; }
    else if tc == "5+0" { m, i := 5, 0; }
    else if tc == "10+0" { m, i := 10, 0; }
    else if tc == "10+5" { m, i := 10, 5; }
    else if tc == "15+10" { m, i := 15, 10; }
    else if tc == "30+0" { m, i := 30, 0; }
    else if tc == "30+20" { m, i := 30, 20; }
    else { m, i := 30, 30; }
  }
}
