/**
 * Go's strconv.ParseUint(s, 10, 64), as the writer uses it on a
 * content-length value: no sign, no underscores, at least one digit, and a
 * value that fits in 64 bits.
 */
module Decimal {
  import opened Base

  const Uint64Limit: nat := 0x1_0000_0000_0000_0000

  predicate IsDigit(ch: char)
  {
    '0' <= ch <= '9'
  }

  predicate AllDigits(s: string)
  {
    forall i :: 0 <= i < |s| ==> IsDigit(s[i])
  }

  /** The value of a string of decimal digits, most significant first. */
  function Value(s: string): nat
    requires AllDigits(s)
  {
    if s == [] then 0 else Value(s[..|s| - 1]) * 10 + (s[|s| - 1] as int - '0' as int)
  }

  /** The decimal spelling of `n`, without leading zeros (strconv.FormatUint). */
  function Format(n: nat): (r: string)
    ensures |r| > 0 && AllDigits(r)
  {
    if n < 10 then [('0' as int + n) as char] else Format(n / 10) + [('0' as int + n % 10) as char]
  }

  function ParseUint(s: string): (r: Option<nat>)
    ensures r.Some? ==> r.value < Uint64Limit
    ensures |s| == 0 ==> r == None
  {
    if |s| > 0 && AllDigits(s) && Value(s) < Uint64Limit then Some(Value(s)) else None
  }

  lemma {:induction false} ValueOfFormat(n: nat)
    ensures Value(Format(n)) == n
  {
    var f := Format(n);
    if n >= 10 {
      assert f[..|f| - 1] == Format(n / 10);
      ValueOfFormat(n / 10);
    }
  }

  /** Every 64-bit value read back from its own spelling. */
  lemma ParseFormatRoundTrip(n: nat)
    requires n < Uint64Limit
    ensures ParseUint(Format(n)) == Some(n)
  {
    ValueOfFormat(n);
  }

  /** A character that is not a digit (a sign, a space, a letter) makes the whole value unreadable. */
  lemma ParseRejectsNonDigit(s: string, i: nat)
    requires i < |s| && !IsDigit(s[i])
    ensures ParseUint(s) == None
  {
  }

  /** Leading zeros do not change the value. */
  lemma {:induction false} LeadingZero(s: string)
    requires AllDigits(s)
    ensures AllDigits("0" + s) && Value("0" + s) == Value(s)
  {
    if s != [] {
      var t := "0" + s;
      assert t[..|t| - 1] == "0" + s[..|s| - 1];
      LeadingZero(s[..|s| - 1]);
    }
  }
}
