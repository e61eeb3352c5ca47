/**
  The two pieces of Python's built-in `str` behaviour the service relies on:
  `str.strip()` with no argument (remove leading and trailing whitespace) and
  `str(n)` for a non-negative integer (its decimal digits).
*/
module PyStr {

  // ---------------------------------------------------------------------------
  // Whitespace and str.strip()
  // ---------------------------------------------------------------------------

  /** The characters for which Python's `str.isspace()` is true, listed one
      by one: the ASCII controls \t \n \x0b \x0c \r, the information
      separators \x1c-\x1f, space, and the Unicode spaces and separators. */
  const PythonWhitespace: set<char> := {
    '\U{9}', '\U{A}', '\U{B}', '\U{C}', '\U{D}',
    '\U{1C}', '\U{1D}', '\U{1E}', '\U{1F}', ' ',
    '\U{85}', '\U{A0}', '\U{1680}',
    '\U{2000}', '\U{2001}', '\U{2002}', '\U{2003}', '\U{2004}', '\U{2005}',
    '\U{2006}', '\U{2007}', '\U{2008}', '\U{2009}', '\U{200A}',
    '\U{2028}', '\U{2029}', '\U{202F}', '\U{205F}', '\U{3000}'
  }

  /** `str.isspace()` for one character, tested by code-point ranges: the
      characters `str.strip()` removes when called without an argument. */
  predicate IsWhitespace(c: char): (b: bool)
    ensures b <==> c in PythonWhitespace
  {
    var n := c as int;
    || (0x09 <= n <= 0x0D)
    || (0x1C <= n <= 0x20)
    || n == 0x85 || n == 0xA0 || n == 0x1680
    || (0x2000 <= n <= 0x200A)
    || n == 0x2028 || n == 0x2029 || n == 0x202F || n == 0x205F || n == 0x3000
  }

  predicate AllWhitespace(s: string)
  {
    forall i :: 0 <= i < |s| ==> IsWhitespace(s[i])
  }

  /** Neither the first nor the last character is whitespace. */
  predicate IsTrimmed(s: string)
  {
    |s| == 0 || (!IsWhitespace(s[0]) && !IsWhitespace(s[|s| - 1]))
  }

  /** The first index at or after `i` that does not hold whitespace (or |s|):
      the scan from the left in CPython's strip. */
  function SkipLeading(s: string, i: nat): (k: nat)
    requires i <= |s|
    ensures i <= k <= |s|
    ensures forall m :: i <= m < k ==> IsWhitespace(s[m])
    ensures k < |s| ==> !IsWhitespace(s[k])
    decreases |s| - i
  {
    if i < |s| && IsWhitespace(s[i]) then SkipLeading(s, i + 1) else i
  }

  /** The scan from the right: moving `j` down towards `lo` past whitespace. */
  function SkipTrailing(s: string, lo: nat, j: nat): (k: nat)
    requires lo <= j <= |s|
    ensures lo <= k <= j
    ensures forall m :: k <= m < j ==> IsWhitespace(s[m])
    ensures k > lo ==> !IsWhitespace(s[k - 1])
    decreases j - lo
  {
    if j > lo && IsWhitespace(s[j - 1]) then SkipTrailing(s, lo, j - 1) else j
  }

  /** `str.strip()`: drop leading and trailing whitespace. */
  function Strip(s: string): (r: string)
    ensures IsTrimmed(r)
    ensures |r| <= |s|
  {
    var i := SkipLeading(s, 0);
    s[i..SkipTrailing(s, i, |s|)]
  }

  /** The test `not s or not s.strip()` used by the store handler; it holds
      exactly for strings made only of whitespace, so the first disjunct adds
      nothing to the second. */
  predicate IsBlank(s: string): (b: bool)
    ensures b <==> AllWhitespace(s)
  {
    StripEmptyIff(s);
    |s| == 0 || |Strip(s)| == 0
  }

  /** Stripping keeps a contiguous middle part of the input and removes only
      whitespace around it. */
  lemma StripSplit(s: string) returns (i: nat, j: nat)
    ensures i <= j <= |s|
    ensures Strip(s) == s[i..j]
    ensures AllWhitespace(s[..i]) && AllWhitespace(s[j..])
  {
    i := SkipLeading(s, 0);
    j := SkipTrailing(s, i, |s|);
    assert AllWhitespace(s[..i]) by {
      forall m | 0 <= m < i ensures IsWhitespace(s[..i][m]) { assert s[..i][m] == s[m]; }
    }
    assert AllWhitespace(s[j..]) by {
      forall m | 0 <= m < |s| - j ensures IsWhitespace(s[j..][m]) { assert s[j..][m] == s[j + m]; }
    }
  }

  /** Characterisation of `str.strip()`: a trimmed string surrounded by
      whitespace strips to exactly that string. */
  lemma StripUnique(p: string, t: string, q: string)
    requires AllWhitespace(p) && AllWhitespace(q) && IsTrimmed(t)
    ensures Strip(p + t + q) == t
  {
    var s := p + t + q;
    var i := SkipLeading(s, 0);
    var j := SkipTrailing(s, i, |s|);
    assert forall m :: 0 <= m < |p| ==> IsWhitespace(s[m]) by {
      forall m | 0 <= m < |p| ensures IsWhitespace(s[m]) { assert s[m] == p[m]; }
    }
    assert forall m :: |p| + |t| <= m < |s| ==> IsWhitespace(s[m]) by {
      forall m | |p| + |t| <= m < |s| ensures IsWhitespace(s[m]) { assert s[m] == q[m - |p| - |t|]; }
    }
    if |t| > 0 {
      assert s[|p|] == t[0];
      assert s[|p| + |t| - 1] == t[|t| - 1];
      assert i == |p|;
      assert j == |p| + |t|;
      assert s[i..j] == t;
    }
  }

  /** A string that is already trimmed is left as it is. */
  lemma StripTrimmed(s: string)
    requires IsTrimmed(s)
    ensures Strip(s) == s
  {
    StripUnique("", s, "");
    assert "" + s + "" == s;
  }

  /** `s.strip().strip() == s.strip()`. */
  lemma StripIdempotent(s: string)
    ensures Strip(Strip(s)) == Strip(s)
  {
    StripTrimmed(Strip(s));
  }

  lemma AllWhitespaceConcat(a: string, b: string)
    requires AllWhitespace(a) && AllWhitespace(b)
    ensures AllWhitespace(a + b)
  {
    forall k | 0 <= k < |a + b| ensures IsWhitespace((a + b)[k]) {
      if k >= |a| { assert (a + b)[k] == b[k - |a|]; }
    }
  }

  lemma Regroup(p: string, s: string, q: string, i: nat, j: nat)
    requires i <= j <= |s|
    ensures p + s + q == (p + s[..i]) + s[i..j] + (s[j..] + q)
  {
    assert s == s[..i] + s[i..j] + s[j..];
  }

  /** Adding whitespace on either side does not change the stripped form. */
  lemma StripIgnoresPadding(p: string, s: string, q: string)
    requires AllWhitespace(p) && AllWhitespace(q)
    ensures Strip(p + s + q) == Strip(s)
  {
    var i, j := StripSplit(s);
    AllWhitespaceConcat(p, s[..i]);
    AllWhitespaceConcat(s[j..], q);
    Regroup(p, s, q, i, j);
    StripUnique(p + s[..i], s[i..j], s[j..] + q);
  }

  /** The stripped form is empty exactly when every character is whitespace. */
  lemma StripEmptyIff(s: string)
    ensures Strip(s) == "" <==> AllWhitespace(s)
  {
    var i, j := StripSplit(s);
    if Strip(s) == "" {
      forall k | 0 <= k < |s| ensures IsWhitespace(s[k]) {
        if k < i { assert s[k] == s[..i][k]; } else { assert s[k] == s[j..][k - j]; }
      }
    }
    if AllWhitespace(s) {
      StripUnique(s, "", "");
      assert s + "" + "" == s;
    }
  }

  // ---------------------------------------------------------------------------
  // Decimal digits and str(n)
  // ---------------------------------------------------------------------------

  predicate IsDigit(c: char)
  {
    '0' <= c <= '9'
  }

  predicate AllDigits(s: string)
  {
    forall i :: 0 <= i < |s| ==> IsDigit(s[i])
  }

  function DigitChar(d: nat): (c: char)
    requires d < 10
    ensures IsDigit(c) && (c as int) - ('0' as int) == d
  {
    (('0' as int) + d) as char
  }

  /** `str(n)` for a non-negative integer: its decimal digits, most significant
      first, with no leading zero. */
  function NatToDecimal(n: nat): (s: string)
    ensures |s| >= 1 && AllDigits(s)
    ensures n > 0 ==> s[0] != '0'
    ensures n == 0 ==> s == "0"
    decreases n
  {
    if n < 10 then [DigitChar(n)] else NatToDecimal(n / 10) + [DigitChar(n % 10)]
  }

  /** The value of a string of decimal digits (the inverse of NatToDecimal). */
  function DecimalValue(s: string): (n: nat)
    requires AllDigits(s)
    decreases |s|
  {
    if |s| == 0 then 0
    else DecimalValue(s[..|s| - 1]) * 10 + ((s[|s| - 1] as int) - ('0' as int))
  }

  /** Reading back the digits printed for `n` gives `n`. */
  lemma {:induction false} DecimalRoundTrip(n: nat)
    ensures DecimalValue(NatToDecimal(n)) == n
    decreases n
  {
    var s := NatToDecimal(n);
    if n >= 10 {
      assert s[..|s| - 1] == NatToDecimal(n / 10);
      DecimalRoundTrip(n / 10);
    }
  }

  /** Length of the longest prefix of `s` made of digits. */
  function LeadingDigits(s: string): (k: nat)
    ensures k <= |s| && AllDigits(s[..k])
    ensures k < |s| ==> !IsDigit(s[k])
    decreases |s|
  {
    if |s| > 0 && IsDigit(s[0]) then 1 + LeadingDigits(s[1..]) else 0
  }

  /** A run of digits followed by a non-digit is read off exactly. */
  lemma {:induction false} LeadingDigitsOf(d: string, t: string)
    requires AllDigits(d)
    requires |t| > 0 && !IsDigit(t[0])
    ensures LeadingDigits(d + t) == |d|
    decreases |d|
  {
    if |d| > 0 {
      assert (d + t)[1..] == d[1..] + t;
      LeadingDigitsOf(d[1..], t);
    } else {
      assert d + t == t;
    }
  }

  /** The digits `str(n)` can produce: at least one digit, and no leading
      zero unless the number is zero itself. */
  predicate IsCanonicalDecimal(d: string)
  {
    |d| >= 1 && AllDigits(d) && (|d| == 1 || d[0] != '0')
  }

  /** A digit string that does not start with '0' denotes a positive number. */
  lemma {:induction false} DecimalValuePositive(d: string)
    requires |d| >= 1 && AllDigits(d) && d[0] != '0'
    ensures DecimalValue(d) >= 1
    decreases |d|
  {
    if |d| > 1 {
      DecimalValuePositive(d[..|d| - 1]);
    }
  }

  /** Printing the value of a canonical digit string gives the string back,
      so NatToDecimal and DecimalValue are inverse bijections between `nat`
      and canonical digit strings. */
  lemma {:induction false} DecimalCanonicalRoundTrip(d: string)
    requires IsCanonicalDecimal(d)
    ensures NatToDecimal(DecimalValue(d)) == d
    decreases |d|
  {
    if |d| > 1 {
      var front := d[..|d| - 1];
      DecimalValuePositive(front);
      DecimalCanonicalRoundTrip(front);
      var n := DecimalValue(d);
      var last := (d[|d| - 1] as int) - ('0' as int);
      assert n == DecimalValue(front) * 10 + last;
      assert n / 10 == DecimalValue(front) && n % 10 == last;
      assert DigitChar(last) == d[|d| - 1];
      assert d == front + [d[|d| - 1]];
    } else {
      assert DigitChar((d[0] as int) - ('0' as int)) == d[0];
    }
  }
}
