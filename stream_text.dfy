/**
 * How a C++ output stream renders the scalar fields that the receive
 * metadata formatter prints, with the stream's default flags: an unsigned
 * integer (`size_t`) in decimal without leading zeros, and a `bool` as the
 * digit 1 or 0 (no `std::boolalpha` is set anywhere in the program).
 * Each rendering has a parser beside it, and the two are proved inverse.
 */
module StreamText {
  import opened Options

  function DigitChar(d: nat): (c: char)
    requires d < 10
    ensures '0' <= c <= '9'
    ensures c as int - '0' as int == d
  {
    ('0' as int + d) as char
  }

  function DigitValue(c: char): (d: nat)
    requires '0' <= c <= '9'
    ensures d < 10
  {
    c as int - '0' as int
  }

  predicate IsDigits(s: string) {
    |s| > 0 && forall i :: 0 <= i < |s| ==> '0' <= s[i] <= '9'
  }

  /** `os << n` for an unsigned integer. */
  function NatText(n: nat): (s: string)
    ensures IsDigits(s)
    ensures s[0] == '0' ==> n == 0
    decreases n
  {
    if n < 10 then [DigitChar(n)] else NatText(n / 10) + [DigitChar(n % 10)]
  }

  /** The value of a non-empty run of decimal digits. */
  function DigitsValue(s: string): nat
    requires IsDigits(s)
    decreases |s|
  {
    if |s| == 1 then DigitValue(s[0])
    else 10 * DigitsValue(s[..|s| - 1]) + DigitValue(s[|s| - 1])
  }

  function ParseNat(s: string): (r: Option<nat>)
    ensures r.Some? <==> IsDigits(s)
  {
    if IsDigits(s) then Some(DigitsValue(s)) else None
  }

  /** Reading back what `NatText` printed gives the number printed. */
  lemma {:induction false} NatTextRoundTrip(n: nat)
    ensures ParseNat(NatText(n)) == Some(n)
  {
    if n >= 10 {
      NatTextRoundTrip(n / 10);
      var s := NatText(n);
      assert s[..|s| - 1] == NatText(n / 10);
    }
  }

  lemma NatTextInjective(m: nat, n: nat)
    requires NatText(m) == NatText(n)
    ensures m == n
  {
    NatTextRoundTrip(m);
    NatTextRoundTrip(n);
  }

  /** `os << b` for a `bool` without `std::boolalpha`: the integer 1 or 0. */
  function BoolText(b: bool): (s: string)
    ensures |s| == 1 && IsDigits(s)
    ensures DigitsValue(s) == if b then 1 else 0
  {
    if b then "1" else "0"
  }

  function ParseBool(s: string): (r: Option<bool>)
    ensures r.Some? <==> s == "1" || s == "0"
  {
    if s == "1" then Some(true) else if s == "0" then Some(false) else None
  }

  lemma BoolTextRoundTrip(b: bool)
    ensures ParseBool(BoolText(b)) == Some(b)
  {
  }

  /** The remainder of `line` after the literal text `p`, if `line` starts with it. */
  function StripPrefix(p: string, line: string): (r: Option<string>)
    ensures r.Some? <==> p <= line
    ensures r.Some? ==> line == p + r.value
  {
    if p <= line then Some(line[|p|..]) else None
  }

  lemma StripPrefixOfConcat(p: string, s: string)
    ensures StripPrefix(p, p + s) == Some(s)
  {
    assert p <= p + s;
    assert (p + s)[|p|..] == s;
  }
}
