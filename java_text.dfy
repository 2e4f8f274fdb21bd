/**
 * The few java.lang.String and java.lang.Integer behaviours the quiz relies on:
 * startsWith, equalsIgnoreCase (on ASCII letters), trim, Integer.parseInt and
 * the decimal rendering of an int in string concatenation.
 */
module JavaText {
  import opened Options

  /** String.startsWith: s is the prefix followed by the rest of s. */
  predicate StartsWith(s: string, prefix: string)
    ensures StartsWith(s, prefix) <==> |prefix| <= |s| && s == prefix + s[|prefix|..]
  {
    |prefix| <= |s| && s[..|prefix|] == prefix
  }

  // ---------------------------------------------------------------------------
  // Case-insensitive comparison (ASCII letters only)
  // ---------------------------------------------------------------------------

  /** Folds an ASCII upper-case letter to lower case; every other char is kept. */
  function Lower(c: char): char {
    if 'A' <= c <= 'Z' then (c as int + 32) as char else c
  }

  /** The whole string, folded char by char. */
  function LowerAll(s: string): string {
    seq(|s|, i requires 0 <= i < |s| => Lower(s[i]))
  }

  /**
   * String.equalsIgnoreCase: same length, then the chars are compared pairwise
   * after case folding. Two strings are equal ignoring case exactly when their
   * folded forms are equal.
   */
  function EqualsIgnoreCase(a: string, b: string): (r: bool)
    ensures r <==> LowerAll(a) == LowerAll(b)
  {
    if |a| != |b| then false
    else if a == [] then true
    else
      var rest := EqualsIgnoreCase(a[1..], b[1..]);
      assert LowerAll(a) == [Lower(a[0])] + LowerAll(a[1..]);
      assert LowerAll(b) == [Lower(b[0])] + LowerAll(b[1..]);
      assert LowerAll(a) == LowerAll(b) ==>
        LowerAll(a)[0] == LowerAll(b)[0] && LowerAll(a)[1..] == LowerAll(b)[1..];
      Lower(a[0]) == Lower(b[0]) && rest
  }

  // ---------------------------------------------------------------------------
  // String.trim: drops every leading and trailing char whose code is at most ' '
  // ---------------------------------------------------------------------------

  predicate IsBlank(c: char) {
    c <= ' '
  }

  /** Number of blanks at the front of s. */
  function LeadingBlanks(s: string): (k: nat)
    ensures k <= |s|
    ensures forall i :: 0 <= i < k ==> IsBlank(s[i])
    ensures k < |s| ==> !IsBlank(s[k])
  {
    if s == [] || !IsBlank(s[0]) then 0 else 1 + LeadingBlanks(s[1..])
  }

  /** Number of blanks at the back of s. */
  function TrailingBlanks(s: string): (k: nat)
    ensures k <= |s|
    ensures forall i :: |s| - k <= i < |s| ==> IsBlank(s[i])
    ensures k < |s| ==> !IsBlank(s[|s| - 1 - k])
  {
    if s == [] || !IsBlank(s[|s| - 1]) then 0 else 1 + TrailingBlanks(s[..|s| - 1])
  }

  /**
   * The trimmed string is the slice of s that starts at its first non-blank
   * and ends at its last non-blank: everything cut off on either side is blank
   * and what is left neither starts nor ends with a blank.
   */
  function Trim(s: string): (r: string)
    ensures LeadingBlanks(s) + |r| <= |s|
    ensures r == s[LeadingBlanks(s)..LeadingBlanks(s) + |r|]
    ensures forall i :: LeadingBlanks(s) + |r| <= i < |s| ==> IsBlank(s[i])
    ensures r != [] ==> !IsBlank(r[0]) && !IsBlank(r[|r| - 1])
  {
    var rest := s[LeadingBlanks(s)..];
    rest[..|rest| - TrailingBlanks(rest)]
  }

  // ---------------------------------------------------------------------------
  // Integer.parseInt and the decimal rendering of an int
  // ---------------------------------------------------------------------------

  const MinInt: int := -0x8000_0000
  const MaxInt: int := 0x7fff_ffff

  predicate IsDigit(c: char) {
    '0' <= c <= '9'
  }

  predicate AllDigits(s: string) {
    forall i :: 0 <= i < |s| ==> IsDigit(s[i])
  }

  function DigitChar(d: nat): (c: char)
    requires d < 10
    ensures IsDigit(c) && c as int - '0' as int == d
  {
    ('0' as int + d) as char
  }

  /** The value of a string of decimal digits, most significant first. */
  function DigitsValue(s: string): nat
    requires AllDigits(s)
  {
    if s == [] then 0
    else DigitsValue(s[..|s| - 1]) * 10 + (s[|s| - 1] as int - '0' as int)
  }

  /**
   * Integer.parseInt(s) with radix 10: an optional '+' or '-', then at least
   * one digit, and a value that fits in 32 bits; None stands for the
   * NumberFormatException thrown otherwise.
   */
  function ParseInt(s: string): (r: Option<int>)
    ensures r.Some? ==> MinInt <= r.value <= MaxInt
    ensures r.Some? ==> |s| > 0
    ensures s != [] && AllDigits(s) && DigitsValue(s) <= MaxInt ==> r == Some(DigitsValue(s))
  {
    if s == [] then None
    else
      var negative := s[0] == '-';
      var body := if s[0] == '-' || s[0] == '+' then s[1..] else s;
      if body == [] || !AllDigits(body) then None
      else
        var magnitude: int := DigitsValue(body);
        var v := if negative then -magnitude else magnitude;
        if MinInt <= v <= MaxInt then Some(v) else None
  }

  /** The payloads Integer.parseInt rejects with a NumberFormatException. */
  lemma ParseIntRejects(s: string)
    ensures s == [] ==> ParseInt(s).None?
    ensures s == "-" || s == "+" ==> ParseInt(s).None?
    ensures |s| > 0 && !IsDigit(s[0]) && s[0] != '-' && s[0] != '+' ==> ParseInt(s).None?
    ensures (exists i :: 0 < i < |s| && !IsDigit(s[i])) ==> ParseInt(s).None?
    ensures s != [] && AllDigits(s) && DigitsValue(s) > MaxInt ==> ParseInt(s).None?
  {
    if i :| 0 < i < |s| && !IsDigit(s[i]) {
      var body := if s[0] == '-' || s[0] == '+' then s[1..] else s;
      assert !AllDigits(body) by {
        if s[0] == '-' || s[0] == '+' {
          assert body[i - 1] == s[i];
        } else {
          assert body[i] == s[i];
        }
      }
    }
  }

  /** A 32-bit int's representative of x: Java's int arithmetic wraps around modulo 2^32. */
  function Wrap32(x: int): (r: int)
    ensures MinInt <= r <= MaxInt
    ensures MinInt <= x <= MaxInt ==> r == x
    ensures (r - x) % 0x1_0000_0000 == 0
    decreases if x < MinInt then MinInt - x else x - MaxInt
  {
    if x < MinInt then Wrap32(x + 0x1_0000_0000)
    else if x > MaxInt then Wrap32(x - 0x1_0000_0000)
    else x
  }

  /** Digits as Integer.toString writes them: at least one, and no leading zero unless the value is 0. */
  predicate NoLeadingZero(d: string) {
    d != [] && AllDigits(d) && (d[0] != '0' || |d| == 1)
  }

  /** A string in the form Integer.toString produces: no '+', no leading zero, no "-0". */
  predicate Canonical(s: string) {
    NoLeadingZero(s) || (|s| > 1 && s[0] == '-' && NoLeadingZero(s[1..]) && s[1] != '0')
  }

  /** Integer.toString of a non-negative value: digits without leading zeros. */
  function NatToString(n: nat): (r: string)
    ensures NoLeadingZero(r)
    ensures r[0] == '0' ==> n == 0
  {
    if n < 10 then [DigitChar(n)] else NatToString(n / 10) + [DigitChar(n % 10)]
  }

  /** How Java renders an int in string concatenation. */
  function IntToString(i: int): (r: string)
    ensures Canonical(r)
    ensures r[0] == '-' <==> i < 0
  {
    if i < 0 then "-" + NatToString(-i) else NatToString(i)
  }

  lemma {:induction false} DigitsOfNatToString(n: nat)
    ensures DigitsValue(NatToString(n)) == n
  {
    if n >= 10 {
      DigitsOfNatToString(n / 10);
      var s := NatToString(n);
      assert s[..|s| - 1] == NatToString(n / 10);
    }
  }

  /** Integer.parseInt reads back every int exactly as Java renders it. */
  lemma ParseIntOfIntToString(i: int)
    requires MinInt <= i <= MaxInt
    ensures ParseInt(IntToString(i)) == Some(i)
  {
    if i < 0 {
      DigitsOfNatToString(-i);
      assert ("-" + NatToString(-i))[1..] == NatToString(-i);
    } else {
      DigitsOfNatToString(i);
    }
  }

  lemma {:induction false} PositiveDigits(d: string)
    requires NoLeadingZero(d) && d[0] != '0'
    ensures DigitsValue(d) >= 1
  {
    if |d| > 1 {
      PositiveDigits(d[..|d| - 1]);
    }
  }

  lemma {:induction false} NatToStringOfDigits(d: string)
    requires NoLeadingZero(d)
    ensures NatToString(DigitsValue(d)) == d
  {
    var last := d[|d| - 1];
    var digit := last as int - '0' as int;
    assert DigitChar(digit) == last;
    if |d| > 1 {
      var init := d[..|d| - 1];
      NatToStringOfDigits(init);
      PositiveDigits(init);
      var n := DigitsValue(d);
      assert n / 10 == DigitsValue(init) && n % 10 == digit;
      assert d == init + [last];
    }
  }

  /** Conversely, Java renders every value parsed from a canonical string as that very string. */
  lemma ParseIntOfCanonical(s: string)
    requires Canonical(s) && ParseInt(s).Some?
    ensures IntToString(ParseInt(s).value) == s
  {
    if s[0] == '-' {
      var body := s[1..];
      NatToStringOfDigits(body);
      PositiveDigits(body);
      assert s == "-" + body;
    } else {
      NatToStringOfDigits(s);
    }
  }
}
