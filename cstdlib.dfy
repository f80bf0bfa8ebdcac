/** `atoi` (section 7.22.1.2 of C11): the decimal integer at the start of a
    string, after optional white space and an optional sign. */
module CStdlib {
  import opened CFormat

  /** The characters `isspace` accepts in the "C" locale. */
  predicate IsSpace(c: char)
  {
    c == ' ' || c == '\t' || c == '\n' || c == '\U{0B}' || c == '\U{0C}' || c == '\r'
  }

  function SkipSpace(s: string): (r: string)
    ensures |r| <= |s|
    ensures r == [] || !IsSpace(r[0])
  {
    if s != [] && IsSpace(s[0]) then SkipSpace(s[1..]) else s
  }

  /** `atoi` as the mathematical value of the subject sequence: white space
      skipped, an optional sign, then the decimal digits up to the first
      character that is not one. The result of an out-of-range conversion
      is undefined in C; this model keeps the exact value. */
  function Atoi(s: string): int
  {
    var t := SkipSpace(s);
    if t != [] && t[0] == '-' then 0 - ReadDecimal(t[1..], 0)
    else if t != [] && t[0] == '+' then ReadDecimal(t[1..], 0)
    else ReadDecimal(t, 0)
  }

  /** What `%d` prints for an integer. */
  function DecimalSigned(x: int): string
  {
    if x < 0 then ['-'] + Decimal(-x) else Decimal(x)
  }

  lemma AtoiOfDigits(n: nat, t: string)
    requires t == [] || !IsDigit(t[0])
    ensures Atoi(Decimal(n) + t) == n
  {
    var s := Decimal(n) + t;
    assert IsDigit(s[0]);
    assert SkipSpace(s) == s;
    DecimalRoundTrip(n, t);
  }

  lemma AtoiOfNegative(n: nat, t: string)
    requires t == [] || !IsDigit(t[0])
    ensures Atoi(['-'] + Decimal(n) + t) == -(n as int)
  {
    var s := ['-'] + Decimal(n) + t;
    assert s[0] == '-' && s[1..] == Decimal(n) + t;
    assert SkipSpace(s) == s;
    DecimalRoundTrip(n, t);
  }

  /** `atoi` reads back what `%d` prints, and stops at the first character
      that cannot continue the number. */
  lemma AtoiReadsDecimal(x: int, t: string)
    requires t == [] || !IsDigit(t[0])
    ensures Atoi(DecimalSigned(x) + t) == x
  {
    if x < 0 {
      AtoiOfNegative(-x, t);
    } else {
      AtoiOfDigits(x, t);
    }
  }

  /** Leading white space does not change the value. */
  lemma AtoiSkipsSpace(c: char, s: string)
    requires IsSpace(c)
    ensures Atoi([c] + s) == Atoi(s)
  {
    assert ([c] + s)[1..] == s;
  }

  /** A string that does not start with a number reads as 0. */
  lemma AtoiNoDigits(s: string)
    requires s != [] && !IsSpace(s[0]) && !IsDigit(s[0]) && s[0] != '-' && s[0] != '+'
    ensures Atoi(s) == 0
  {
  }
}
