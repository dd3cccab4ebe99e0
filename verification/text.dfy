/**
 * String and integer helpers that the Python backend and the TypeScript
 * frontend take from their standard libraries: decimal rendering, `strip`,
 * `split`/`join` on one separator character, `padStart`, first-occurrence
 * `replace`, UTF-16 length and the two languages' integer divisions.
 */
module Text {
  import opened Wrappers

  // ---------------------------------------------------------------------------
  // Decimal digits

  predicate IsDigit(c: char) {
    '0' <= c <= '9'
  }

  predicate AllDigits(s: string) {
    forall i :: 0 <= i < |s| ==> IsDigit(s[i])
  }

  function DigitChar(d: nat): (c: char)
    requires d < 10
    ensures IsDigit(c)
    ensures c as int - '0' as int == d
  {
    ('0' as int + d) as char
  }

  /** The value of a string of decimal digits, most significant first. */
  function DigitsValue(s: string): nat
    requires AllDigits(s)
  {
    if |s| == 0 then 0
    else DigitsValue(s[..|s| - 1]) * 10 + (s[|s| - 1] as int - '0' as int)
  }

  /** Python's `str(n)` and JavaScript's `n.toString()` for a natural number. */
  function NatToString(n: nat): (s: string)
    ensures |s| > 0
    ensures AllDigits(s)
    decreases n
  {
    if n < 10 then [DigitChar(n)]
    else NatToString(n / 10) + [DigitChar(n % 10)]
  }

  /** Reading back a rendered natural number gives the number. */
  lemma {:induction false} NatToStringRoundTrip(n: nat)
    ensures DigitsValue(NatToString(n)) == n
    decreases n
  {
    if n >= 10 {
      var s := NatToString(n);
      assert s[..|s| - 1] == NatToString(n / 10);
      NatToStringRoundTrip(n / 10);
    }
  }

  /** Distinct numbers have distinct renderings. */
  lemma NatToStringInjective(a: nat, b: nat)
    ensures NatToString(a) == NatToString(b) ==> a == b
  {
    NatToStringRoundTrip(a);
    NatToStringRoundTrip(b);
  }

  /** `str(i)` / `i.toString()` for any integer: a minus sign, then the magnitude. */
  function IntToString(i: int): (s: string)
    ensures |s| > 0
    ensures i >= 0 ==> s == NatToString(i)
    ensures i < 0 ==> s == "-" + NatToString(-i)
  {
    if i < 0 then "-" + NatToString(-i) else NatToString(i)
  }

  // ---------------------------------------------------------------------------
  // Integer division as the two source languages define it

  /**
   * Python's `int(x / b)` and JavaScript's `Math.trunc(x / b)`: the quotient
   * rounded toward zero, never away from it.
   */
  function TruncDiv(a: int, b: int): (q: int)
    requires b > 0
    ensures a >= 0 ==> q >= 0 && q * b <= a < q * b + b
    ensures a < 0 ==> q <= 0 && q * b - b < a <= q * b
  {
    if a >= 0 then a / b else -((-a) / b)
  }

  /** JavaScript's `a % b` for a positive `b`: the remainder takes the sign of `a`. */
  function TruncRem(a: int, b: int): (r: int)
    requires b > 0
    ensures a >= 0 ==> 0 <= r < b
    ensures a < 0 ==> -b < r <= 0
    ensures a == TruncDiv(a, b) * b + r
  {
    a - TruncDiv(a, b) * b
  }

  /** Python's `a // b`: the quotient rounded toward negative infinity; `b == 0` raises. */
  function FloorDiv(a: int, b: int): (q: Result<int>)
    ensures b == 0 <==> q.Failure?
    ensures b > 0 && q.Success? ==> q.value * b <= a < q.value * b + b
    ensures b < 0 && q.Success? ==> q.value * b + b < a <= q.value * b
  {
    if b == 0 then Failure("ZeroDivisionError: integer division or modulo by zero")
    else if b > 0 || a % b == 0 then Success(a / b)
    else Success(a / b - 1)
  }

  // ---------------------------------------------------------------------------
  // Whitespace and strip

  /** The characters Python's `str.isspace()` accepts, which `str.strip()` and `int()` remove. */
  predicate IsPySpace(c: char) {
    var n := c as int;
    (0x09 <= n <= 0x0D) || (0x1C <= n <= 0x20) || n == 0x85 || n == 0xA0
    || n == 0x1680 || (0x2000 <= n <= 0x200A) || n == 0x2028 || n == 0x2029
    || n == 0x202F || n == 0x205F || n == 0x3000
  }

  /** Python's `s.strip()`: the longest slice without whitespace at either end. */
  function Strip(s: string): (t: string)
    ensures exists i, j :: 0 <= i <= j <= |s| && t == s[i..j]
                          && (forall k :: 0 <= k < i ==> IsPySpace(s[k]))
                          && (forall k :: j <= k < |s| ==> IsPySpace(s[k]))
    ensures |t| > 0 ==> !IsPySpace(t[0]) && !IsPySpace(t[|t| - 1])
  {
    var i := LeadingSpace(s, 0);
    var j := TrailingSpace(s, |s|, i);
    s[i..j]
  }

  function LeadingSpace(s: string, i: nat): (k: nat)
    requires i <= |s|
    ensures i <= k <= |s|
    ensures forall m :: i <= m < k ==> IsPySpace(s[m])
    ensures k < |s| ==> !IsPySpace(s[k])
    decreases |s| - i
  {
    if i == |s| || !IsPySpace(s[i]) then i else LeadingSpace(s, i + 1)
  }

  function TrailingSpace(s: string, j: nat, lo: nat): (k: nat)
    requires lo <= j <= |s|
    ensures lo <= k <= j
    ensures forall m :: k <= m < j ==> IsPySpace(s[m])
    ensures k > lo ==> !IsPySpace(s[k - 1])
    decreases j
  {
    if j == lo || !IsPySpace(s[j - 1]) then j else TrailingSpace(s, j - 1, lo)
  }

  /** A string with no whitespace at either end is its own strip. */
  lemma StripUntrimmed(s: string)
    requires |s| == 0 || (!IsPySpace(s[0]) && !IsPySpace(s[|s| - 1]))
    ensures Strip(s) == s
  {
    if |s| > 0 {
      assert LeadingSpace(s, 0) == 0;
      assert TrailingSpace(s, |s|, 0) == |s|;
    }
  }

  /** A string that is whitespace only strips to "" and vice versa. */
  lemma StripEmptyIffBlank(s: string)
    ensures Strip(s) == "" <==> forall k :: 0 <= k < |s| ==> IsPySpace(s[k])
  {
    var i := LeadingSpace(s, 0);
    if forall k :: 0 <= k < |s| ==> IsPySpace(s[k]) {
      if i < |s| {
        assert false;
      }
    } else {
      var k :| 0 <= k < |s| && !IsPySpace(s[k]);
      if i == |s| {
        assert false;
      }
      assert TrailingSpace(s, |s|, i) > i;
    }
  }

  // ---------------------------------------------------------------------------
  // Split and join on one separator character

  /** The number of occurrences of `c` in `s`. */
  function Occurrences(s: string, c: char): nat {
    multiset(s)[c]
  }

  /** The first position of `c` in `s`, if any. */
  function FirstIndexOf(s: string, c: char): (r: Option<nat>)
    ensures r.None? <==> c !in s
    ensures r.Some? ==> r.value < |s| && s[r.value] == c && c !in s[..r.value]
  {
    FirstFrom(s, c, 0)
  }

  function FirstFrom(s: string, c: char, i: nat): (r: Option<nat>)
    requires i <= |s|
    requires c !in s[..i]
    ensures r.None? <==> c !in s
    ensures r.Some? ==> i <= r.value < |s| && s[r.value] == c && c !in s[..r.value]
    decreases |s| - i
  {
    if i == |s| then
      assert s[..i] == s;
      None
    else if s[i] == c then Some(i)
    else
      assert s[..i + 1] == s[..i] + [s[i]];
      FirstFrom(s, c, i + 1)
  }

  /** `parts` glued back together with `sep` between neighbours: Python's `sep.join(parts)`. */
  function Join(parts: seq<string>, sep: char): string {
    if |parts| == 0 then ""
    else if |parts| == 1 then parts[0]
    else parts[0] + [sep] + Join(parts[1..], sep)
  }

  /**
   * Python's `s.split(sep)` and JavaScript's `s.split(sep)` for a one-character
   * separator: one more piece than there are separators, none containing it.
   */
  function SplitOn(s: string, sep: char): (parts: seq<string>)
    ensures |parts| == Occurrences(s, sep) + 1
    ensures forall i :: 0 <= i < |parts| ==> sep !in parts[i]
    ensures Join(parts, sep) == s
    decreases |s|
  {
    match FirstIndexOf(s, sep)
    case None =>
      assert multiset(s)[sep] == 0;
      [s]
    case Some(k) =>
      var rest := SplitOn(s[k + 1..], sep);
      CountAroundFirst(s, sep, k);
      assert ([s[..k]] + rest)[1..] == rest;
      [s[..k]] + rest
  }

  /** Cutting `s` at its first `sep`: the piece before holds none, and the cut accounts for one. */
  lemma CountAroundFirst(s: string, sep: char, k: nat)
    requires k < |s| && s[k] == sep && sep !in s[..k]
    ensures s == s[..k] + [sep] + s[k + 1..]
    ensures Occurrences(s, sep) == Occurrences(s[k + 1..], sep) + 1
  {
    assert s == s[..k] + [sep] + s[k + 1..];
    assert multiset(s) == multiset(s[..k]) + multiset([sep]) + multiset(s[k + 1..]);
  }

  /** Splitting a join of separator-free pieces gives the pieces back. */
  lemma {:induction false} SplitJoin(parts: seq<string>, sep: char)
    requires |parts| > 0
    requires forall i :: 0 <= i < |parts| ==> sep !in parts[i]
    ensures SplitOn(Join(parts, sep), sep) == parts
    decreases |parts|
  {
    if |parts| == 1 {
      assert FirstIndexOf(Join(parts, sep), sep).None?;
    } else {
      var tail := Join(parts[1..], sep);
      SplitAfterPiece(parts[0], sep, tail);
      SplitJoin(parts[1..], sep);
      assert parts == [parts[0]] + parts[1..];
    }
  }

  /** A separator-free piece, the separator, then the rest: the split's first part is the piece. */
  lemma SplitAfterPiece(a: string, sep: char, t: string)
    requires sep !in a
    ensures SplitOn(a + [sep] + t, sep) == [a] + SplitOn(t, sep)
  {
    var s := a + [sep] + t;
    var k := |a|;
    assert s[k] == sep;
    assert s[..k] == a;
    assert FirstIndexOf(s, sep) == Some(k);
    assert s[k + 1..] == t;
  }

  // ---------------------------------------------------------------------------
  // JavaScript string operations

  /** JavaScript's `s.padStart(width, fill)`: fills on the left up to `width`, never truncates. */
  function PadStart(s: string, width: nat, fill: char): (t: string)
    ensures |t| == if |s| >= width then |s| else width
    ensures t[|t| - |s|..] == s
    ensures forall k :: 0 <= k < |t| - |s| ==> t[k] == fill
    decreases width - |s|
  {
    if |s| >= width then s else PadStart([fill] + s, width, fill)
  }

  /** `pat` occurs in `s` starting at `i`. */
  predicate OccursAt(s: string, pat: string, i: nat) {
    i + |pat| <= |s| && s[i..i + |pat|] == pat
  }

  /** The first position where `pat` occurs in `s`, searching from `from`. */
  function IndexOf(s: string, pat: string, from: nat): (r: Option<nat>)
    ensures r.Some? ==> from <= r.value && OccursAt(s, pat, r.value)
    ensures r.Some? ==> forall i :: from <= i < r.value ==> !OccursAt(s, pat, i)
    ensures r.None? ==> forall i :: from <= i ==> !OccursAt(s, pat, i)
    decreases |s| + 1 - from
  {
    if from + |pat| > |s| then None
    else if s[from..from + |pat|] == pat then Some(from)
    else IndexOf(s, pat, from + 1)
  }

  /**
   * JavaScript's `s.replace(pat, value)` with a string pattern: only the first
   * occurrence is replaced, and a string without one is returned unchanged.
   */
  function ReplaceFirst(s: string, pat: string, value: string): (t: string)
    ensures IndexOf(s, pat, 0).None? ==> t == s
    ensures IndexOf(s, pat, 0).Some? ==>
              var i := IndexOf(s, pat, 0).value;
              t == s[..i] + value + s[i + |pat|..]
  {
    match IndexOf(s, pat, 0)
    case None => s
    case Some(i) => s[..i] + value + s[i + |pat|..]
  }

  /** The number of UTF-16 code units of `c`: what JavaScript's `.length` counts. */
  function Utf16Units(c: char): nat {
    if c as int > 0xFFFF then 2 else 1
  }

  /** JavaScript's `s.length`: characters beyond the Basic Multilingual Plane count twice. */
  function JsLength(s: string): (n: nat)
    ensures |s| <= n <= 2 * |s|
    ensures (forall i :: 0 <= i < |s| ==> s[i] as int <= 0xFFFF) ==> n == |s|
  {
    if |s| == 0 then 0 else JsLength(s[..|s| - 1]) + Utf16Units(s[|s| - 1])
  }
}
