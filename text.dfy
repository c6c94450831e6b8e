/** The two pieces of Go's string library the converters rely on: prefix
    testing (strings.HasPrefix) and decimal rendering of a non-negative
    index (strconv.Itoa), with a decimal reader as the latter's inverse. */
module Text {

  /** strings.HasPrefix, one character at a time. */
  function HasPrefix(s: string, prefix: string): bool
  {
    if prefix == [] then true
    else if s == [] then false
    else s[0] == prefix[0] && HasPrefix(s[1..], prefix[1..])
  }

  /** HasPrefix agrees with Dafny's prefix relation on sequences. */
  lemma {:induction false} HasPrefixIsPrefix(s: string, prefix: string)
    ensures HasPrefix(s, prefix) <==> prefix <= s
  {
    if prefix != [] && s != [] {
      HasPrefixIsPrefix(s[1..], prefix[1..]);
      assert prefix <= s <==> s[0] == prefix[0] && prefix[1..] <= s[1..];
    }
  }

  predicate IsDigit(c: char)
  {
    '0' <= c <= '9'
  }

  predicate IsDigits(s: string)
  {
    forall i :: 0 <= i < |s| ==> IsDigit(s[i])
  }

  function DigitChar(d: nat): (c: char)
    requires d < 10
    ensures IsDigit(c) && c as int - '0' as int == d
  {
    ('0' as int + d) as char
  }

  /** strconv.Itoa restricted to the non-negative indices it is given here:
      most significant digit first, no leading zeros, "0" for zero. */
  function Decimal(n: nat): (s: string)
    ensures 1 <= |s|
    ensures IsDigits(s)
    ensures |s| > 1 ==> s[0] != '0'
    decreases n
  {
    if n < 10 then [DigitChar(n)] else Decimal(n / 10) + [DigitChar(n % 10)]
  }

  /** The number a string of decimal digits denotes. */
  function DigitsValue(s: string): nat
    requires IsDigits(s)
  {
    if s == [] then 0
    else DigitsValue(s[..|s| - 1]) * 10 + (s[|s| - 1] as int - '0' as int)
  }

  /** Reading back what Decimal wrote gives the number it started from. */
  lemma {:induction false} DecimalRoundTrip(n: nat)
    ensures DigitsValue(Decimal(n)) == n
    decreases n
  {
    var s := Decimal(n);
    if n >= 10 {
      DecimalRoundTrip(n / 10);
      assert s[..|s| - 1] == Decimal(n / 10);
    } else {
      assert s[..|s| - 1] == [];
    }
  }

  /** Distinct indices render to distinct strings. */
  lemma DecimalInjective(a: nat, b: nat)
    requires a != b
    ensures Decimal(a) != Decimal(b)
  {
    DecimalRoundTrip(a);
    DecimalRoundTrip(b);
  }
}
