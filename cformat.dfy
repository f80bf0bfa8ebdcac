/** The numeric printf conversions the program uses: `%ld` (decimal) and
    `%llx` / `%lx` / `%x` (lower-case hexadecimal), each with the reading that
    recovers the number from the printed digits. */
module CFormat {

  predicate IsDigit(c: char)
  {
    '0' <= c <= '9'
  }

  predicate IsLowerHexDigit(c: char)
  {
    IsDigit(c) || 'a' <= c <= 'f'
  }

  /** A string made only of lower-case hexadecimal digits. */
  predicate IsLowerHex(s: string)
  {
    forall i :: 0 <= i < |s| ==> IsLowerHexDigit(s[i])
  }

  function DigitChar(d: nat): (c: char)
    requires d < 10
    ensures IsDigit(c)
  {
    ('0' as int + d) as char
  }

  function DigitValue(c: char): (d: nat)
    requires IsDigit(c)
    ensures d < 10 && DigitChar(d) == c
  {
    (c as int - '0' as int) as nat
  }

  function HexChar(d: nat): (c: char)
    requires d < 16
    ensures IsLowerHexDigit(c)
  {
    if d < 10 then DigitChar(d) else ('a' as int + d - 10) as char
  }

  function HexValue(c: char): (d: nat)
    requires IsLowerHexDigit(c)
    ensures d < 16 && HexChar(d) == c
  {
    if IsDigit(c) then DigitValue(c) else (c as int - 'a' as int + 10) as nat
  }

  /** The digits `%ld` prints for a non-negative number: no leading zero
      except for zero itself. */
  function Decimal(n: nat): (s: string)
    ensures |s| > 0
    ensures forall i :: 0 <= i < |s| ==> IsDigit(s[i])
    ensures |s| > 1 ==> s[0] != '0'
    ensures n < 10 <==> |s| == 1
  {
    if n < 10 then [DigitChar(n)] else Decimal(n / 10) + [DigitChar(n % 10)]
  }

  /** The decimal digits at the start of `s` read left to right onto `acc`,
      stopping at the first character that is not a digit. */
  function ReadDecimal(s: string, acc: nat): nat
  {
    if s == [] || !IsDigit(s[0]) then acc
    else ReadDecimal(s[1..], acc * 10 + DigitValue(s[0]))
  }

  /** Reading runs straight on from one block of digits into the next. */
  lemma {:induction false} ReadDecimalAppend(ds: string, rest: string, acc: nat)
    requires forall i :: 0 <= i < |ds| ==> IsDigit(ds[i])
    ensures ReadDecimal(ds + rest, acc) == ReadDecimal(rest, ReadDecimal(ds, acc))
  {
    if ds == [] {
      assert ds + rest == rest;
    } else {
      assert (ds + rest)[1..] == ds[1..] + rest;
      ReadDecimalAppend(ds[1..], rest, acc * 10 + DigitValue(ds[0]));
    }
  }

  /** Reading back the printed digits gives the number printed, whatever
      non-digit follows them. */
  lemma {:induction false} DecimalRoundTrip(n: nat, t: string)
    requires t == [] || !IsDigit(t[0])
    ensures ReadDecimal(Decimal(n) + t, 0) == n
  {
    ReadDecimalAppend(Decimal(n), t, 0);
    if n >= 10 {
      DecimalRoundTrip(n / 10, []);
      assert Decimal(n / 10) + [] == Decimal(n / 10);
      ReadDecimalAppend(Decimal(n / 10), [DigitChar(n % 10)], 0);
    }
  }

  /** The digits `%llx` prints for an unsigned number: lower case, no leading
      zero except for zero itself. */
  function LowerHex(u: nat): (s: string)
    ensures |s| > 0
    ensures IsLowerHex(s)
    ensures |s| > 1 ==> s[0] != '0'
  {
    if u < 16 then [HexChar(u)] else LowerHex(u / 16) + [HexChar(u % 16)]
  }

  /** The number a string of lower-case hexadecimal digits denotes. */
  function LowerHexValue(hs: string): nat
    requires IsLowerHex(hs)
  {
    if hs == [] then 0
    else LowerHexValue(hs[..|hs| - 1]) * 16 + HexValue(hs[|hs| - 1])
  }

  /** Reading back the printed hexadecimal digits gives the number printed. */
  lemma {:induction false} LowerHexRoundTrip(u: nat)
    ensures LowerHexValue(LowerHex(u)) == u
  {
    if u >= 16 {
      var hs := LowerHex(u);
      assert hs[..|hs| - 1] == LowerHex(u / 16);
      LowerHexRoundTrip(u / 16);
    }
  }

  /** A 64-bit value never needs more than sixteen hexadecimal digits. */
  lemma {:induction false} LowerHexLength(u: nat, k: nat)
    requires u < Pow16(k)
    requires k > 0
    ensures |LowerHex(u)| <= k
  {
    if u >= 16 {
      assert u / 16 < Pow16(k - 1);
      LowerHexLength(u / 16, k - 1);
    }
  }

  /** A value of at least `16^k` needs more than `k` digits. */
  lemma {:induction false} LowerHexLengthAtLeast(u: nat, k: nat)
    requires Pow16(k) <= u
    ensures |LowerHex(u)| > k
  {
    if k > 0 {
      assert Pow16(k - 1) <= u / 16;
      LowerHexLengthAtLeast(u / 16, k - 1);
    }
  }

  /** A 64-bit pattern takes at most sixteen digits, and exactly sixteen
      when its top bit is set. */
  lemma LowerHex64Length(u: nat)
    requires u < 0x1_0000_0000_0000_0000
    ensures |LowerHex(u)| <= 16
    ensures u >= 0x8000_0000_0000_0000 ==> |LowerHex(u)| == 16
  {
    assert Pow16(16) == 0x1_0000_0000_0000_0000;
    LowerHexLength(u, 16);
    if u >= 0x8000_0000_0000_0000 {
      assert Pow16(15) == 0x1000_0000_0000_0000;
      LowerHexLengthAtLeast(u, 15);
    }
  }

  function Pow16(k: nat): (p: nat)
    ensures p > 0
  {
    if k == 0 then 1 else 16 * Pow16(k - 1)
  }
}
