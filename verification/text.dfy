/**
 * The string primitives the modelled programs lean on: Go's strconv.Itoa and
 * strconv.Atoi (Python's "%d" formats integers the same way), strings.Split
 * with a one-character separator, strings.Contains, strings.ReplaceAll with an
 * empty replacement, and the regular expression [0-9]+ used with FindAllString.
 * Strings are sequences of characters; only ASCII digits, '-' and '+' matter.
 */
module Text {
  import opened Wrappers

  predicate IsDigit(c: char) {
    '0' <= c <= '9'
  }

  predicate AllDigits(s: string) {
    forall i :: 0 <= i < |s| ==> IsDigit(s[i])
  }

  function DigitChar(d: nat): (c: char)
    requires d < 10
    ensures IsDigit(c)
  {
    ('0' as int + d) as char
  }

  function DigitValue(c: char): (d: nat)
    requires IsDigit(c)
    ensures d < 10
  {
    c as int - '0' as int
  }

  /** Decimal digits of a natural number, most significant first, no leading zeros. */
  function NatToString(n: nat): (s: string)
    ensures |s| >= 1 && AllDigits(s)
    decreases n
  {
    if n < 10 then [DigitChar(n)] else NatToString(n / 10) + [DigitChar(n % 10)]
  }

  /** strconv.Itoa / "%d": a leading '-' exactly for negative numbers, then the digits. */
  function Itoa(n: int): (s: string)
    ensures |s| >= 1 && (s[0] == '-' <==> n < 0)
    ensures n >= 0 ==> AllDigits(s)
  {
    if n < 0 then "-" + NatToString(-n) else NatToString(n)
  }

  /** The value of a string of decimal digits ("" is 0). */
  function DigitsValue(s: string): nat
    requires AllDigits(s)
    decreases |s|
  {
    if s == [] then 0 else DigitsValue(s[..|s| - 1]) * 10 + DigitValue(s[|s| - 1])
  }

  /**
   * strconv.Atoi: an optional sign followed by at least one digit; anything
   * else is a syntax error (None). Range errors of 64-bit integers are not
   * modelled.
   */
  function Atoi(s: string): (r: Option<int>)
    ensures s == [] ==> r.None?
    ensures r.Some? && r.value < 0 ==> s[0] == '-'
    ensures |s| >= 1 && AllDigits(s) ==> r.Some? && r.value >= 0
  {
    if s == [] then None
    else if s[0] == '-' || s[0] == '+' then
      var digits := s[1..];
      if digits != [] && AllDigits(digits) then
        Some(if s[0] == '-' then -(DigitsValue(digits) as int) else DigitsValue(digits))
      else None
    else if AllDigits(s) then Some(DigitsValue(s))
    else None
  }

  /** `n, _ := strconv.Atoi(s)`: the discarded error leaves n == 0. */
  function AtoiOrZero(s: string): int {
    match Atoi(s)
    case Some(n) => n
    case None => 0
  }

  lemma {:induction false} DigitsValueOfNatToString(n: nat)
    ensures DigitsValue(NatToString(n)) == n
    decreases n
  {
    if n >= 10 {
      DigitsValueOfNatToString(n / 10);
      var s := NatToString(n / 10) + [DigitChar(n % 10)];
      assert s[..|s| - 1] == NatToString(n / 10);
    }
  }

  /** Reading back what Itoa wrote gives the number: Atoi(Itoa(n)) == n for every n. */
  lemma AtoiItoa(n: int)
    ensures Atoi(Itoa(n)) == Some(n)
  {
    if n < 0 {
      var d := NatToString(-n);
      assert Itoa(n) == "-" + d;
      assert ("-" + d)[0] == '-' && ("-" + d)[1..] == d;
      DigitsValueOfNatToString(-n);
      assert Atoi("-" + d) == Some(-(DigitsValue(d) as int));
    } else {
      var d := NatToString(n);
      assert IsDigit(d[0]);
      DigitsValueOfNatToString(n);
      assert Atoi(d) == Some(DigitsValue(d));
    }
  }

  lemma ItoaInjective(a: int, b: int)
    requires Itoa(a) == Itoa(b)
    ensures a == b
  {
    AtoiItoa(a);
    AtoiItoa(b);
  }

  lemma ItoaHasNo(n: int, c: char)
    requires c != '-' && !IsDigit(c)
    ensures c !in Itoa(n)
  {
  }

  /**
   * strings.Split with a one-character separator: the pieces between
   * separators, always at least one ("" splits into [""]).
   */
  function Split(s: string, sep: char): (parts: seq<string>)
    ensures |parts| >= 1
    decreases |s|
  {
    if s == [] then [""]
    else
      var rest := Split(s[1..], sep);
      if s[0] == sep then [""] + rest else [[s[0]] + rest[0]] + rest[1..]
  }

  lemma {:induction false} SplitWithoutSeparator(s: string, sep: char)
    requires sep !in s
    ensures Split(s, sep) == [s]
    decreases |s|
  {
    if s != [] {
      SplitWithoutSeparator(s[1..], sep);
      assert [s[0]] + s[1..] == s;
    }
  }

  /** Splitting "a<sep>b" gives a, then the pieces of b. */
  lemma {:induction false} SplitAtFirstSeparator(a: string, b: string, sep: char)
    requires sep !in a
    ensures Split(a + [sep] + b, sep) == [a] + Split(b, sep)
    decreases |a|
  {
    if a == [] {
      assert a + [sep] + b == [sep] + b;
      assert ([sep] + b)[1..] == b;
    } else {
      SplitAtFirstSeparator(a[1..], b, sep);
      assert (a + [sep] + b)[1..] == a[1..] + [sep] + b;
      assert [a[0]] + a[1..] == a;
    }
  }

  /** strings.Contains. */
  predicate Contains(s: string, sub: string)
    decreases |s|
  {
    |sub| <= |s| && (s[..|sub|] == sub || Contains(s[1..], sub))
  }

  /** strings.ReplaceAll(s, pat, "") for a non-empty pattern: leftmost, non-overlapping matches removed. */
  function RemoveAll(s: string, pat: string): string
    requires |pat| > 0
    decreases |s|
  {
    if |s| < |pat| then s
    else if s[..|pat|] == pat then RemoveAll(s[|pat|..], pat)
    else [s[0]] + RemoveAll(s[1..], pat)
  }

  /** The number of leading digits of s. */
  function LeadingDigits(s: string): (n: nat)
    ensures n <= |s| && AllDigits(s[..n])
    ensures n < |s| ==> !IsDigit(s[n])
    decreases |s|
  {
    if s == [] || !IsDigit(s[0]) then 0 else 1 + LeadingDigits(s[1..])
  }

  /** regexp `[0-9]+` with FindAllString(s, -1): the maximal runs of digits, left to right. */
  function DigitRuns(s: string): (runs: seq<string>)
    ensures forall r :: r in runs ==> |r| >= 1 && AllDigits(r)
    decreases |s|
  {
    if s == [] then []
    else if !IsDigit(s[0]) then DigitRuns(s[1..])
    else
      var n := LeadingDigits(s);
      [s[..n]] + DigitRuns(s[n..])
  }

  lemma {:induction false} DigitRunsSkip(a: string, b: string)
    requires forall i :: 0 <= i < |a| ==> !IsDigit(a[i])
    ensures DigitRuns(a + b) == DigitRuns(b)
    decreases |a|
  {
    if a != [] {
      assert (a + b)[1..] == a[1..] + b;
      DigitRunsSkip(a[1..], b);
    } else {
      assert a + b == b;
    }
  }

  lemma {:induction false} LeadingDigitsOf(d: string, b: string)
    requires AllDigits(d)
    requires b == [] || !IsDigit(b[0])
    ensures LeadingDigits(d + b) == |d|
    decreases |d|
  {
    if d == [] {
      assert d + b == b;
    } else {
      assert (d + b)[1..] == d[1..] + b;
      LeadingDigitsOf(d[1..], b);
    }
  }

  /** A run of digits followed by a non-digit (or the end) is found as one number. */
  lemma DigitRunsTake(d: string, b: string)
    requires |d| >= 1 && AllDigits(d)
    requires b == [] || !IsDigit(b[0])
    ensures DigitRuns(d + b) == [d] + DigitRuns(b)
  {
    LeadingDigitsOf(d, b);
    var s := d + b;
    assert s[..|d|] == d;
    assert s[|d|..] == b;
  }
}
