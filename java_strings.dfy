/**
 * The two Java string conversions the normaliser relies on: Boolean.toString
 * (for tweet_is_retweet) and the decimal rendering of a long that Java's string
 * concatenation performs (for tweet_url). Each comes with the parser that
 * inverts it, so that the round trips can be stated.
 */
module JavaStrings {
  import opened Wrappers

  /** Boolean.toString: the literal "true" or "false". */
  function BoolToString(b: bool): (s: string)
    ensures ParseBool(s) == Some(b)
    ensures s == "true" || s == "false"
  {
    if b then "true" else "false"
  }

  /** Boolean.parseBoolean restricted to the two exact spellings. */
  function ParseBool(s: string): Option<bool>
  {
    if s == "true" then Some(true) else if s == "false" then Some(false) else None
  }

  predicate IsDigit(c: char)
  {
    '0' <= c <= '9'
  }

  predicate AllDigits(s: string)
  {
    forall i :: 0 <= i < |s| ==> IsDigit(s[i])
  }

  function DigitChar(d: nat): (c: char)
    requires d < 10
    ensures IsDigit(c) && c as int - '0' as int == d
  {
    ('0' as int + d) as char
  }

  /** The number a string of decimal digits denotes, most significant digit first. */
  function DigitsValue(s: string): nat
    requires AllDigits(s)
  {
    if s == [] then 0
    else DigitsValue(s[..|s| - 1]) * 10 + (s[|s| - 1] as int - '0' as int)
  }

  /** Decimal rendering of a non-negative number, without leading zeros. */
  function NatToString(n: nat): (s: string)
    ensures |s| >= 1 && AllDigits(s)
    ensures DigitsValue(s) == n
    ensures s[0] == '0' ==> n == 0
    decreases n
  {
    if n < 10 then [DigitChar(n)]
    else
      var prefix := NatToString(n / 10);
      var s := prefix + [DigitChar(n % 10)];
      assert s[..|s| - 1] == prefix;
      s
  }

  /** Long.toString, as Java's string concatenation applies it to a long. */
  function LongToString(n: int): (s: string)
    ensures ParseLong(s) == Some(n)
    ensures '/' !in s && s != []
  {
    if n < 0 then "-" + NatToString(-n) else NatToString(n)
  }

  /** Long.parseLong on an optional minus sign followed by at least one digit. */
  function ParseLong(s: string): Option<int>
  {
    if |s| >= 2 && s[0] == '-' && AllDigits(s[1..]) then Some(0 - DigitsValue(s[1..]) as int)
    else if |s| >= 1 && AllDigits(s) then Some(DigitsValue(s) as int)
    else None
  }

  /** Two different longs never render to the same text. */
  lemma LongToStringInjective(m: int, n: int)
    requires LongToString(m) == LongToString(n)
    ensures m == n
  {
    assert ParseLong(LongToString(m)) == Some(m);
  }
}
