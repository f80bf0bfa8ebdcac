/** The C integer widths the program uses, the conversions between them, and
    an Option type for the C functions that can return NULL. */
module CTypes {

  type uint8 = x: int | 0 <= x < 0x100
  type int32 = x: int | -0x8000_0000 <= x < 0x8000_0000
  type int64 = x: int | -0x8000_0000_0000_0000 <= x < 0x8000_0000_0000_0000
  type uint64 = x: int | 0 <= x < 0x1_0000_0000_0000_0000

  datatype Option<T> = None | Some(value: T)

  /** Conversion of an integer to `uint8_t` (section 6.3.1.3 of C11): the
      unique value in 0..255 congruent to the source value modulo 256. */
  function ToUint8(x: int): (r: uint8)
    ensures (x - r) % 0x100 == 0
    ensures 0 <= x < 0x100 ==> r == x
  {
    x % 0x100
  }

  /** An `int64_t` handed to a `%llx` conversion is read as an `unsigned long
      long`: its 64-bit two's complement pattern. */
  function TwosComplement64(n: int64): (u: uint64)
    ensures (u - n) % 0x1_0000_0000_0000_0000 == 0
    ensures n >= 0 <==> u < 0x8000_0000_0000_0000
  {
    if n < 0 then n + 0x1_0000_0000_0000_0000 else n
  }

  /** Reading a 64-bit pattern back as a signed `int64_t`. */
  function FromTwosComplement64(u: uint64): int64
  {
    if u < 0x8000_0000_0000_0000 then u else u - 0x1_0000_0000_0000_0000
  }

  /** Two's complement loses nothing: every `int64_t` is recovered from the
      pattern `%llx` prints. */
  lemma TwosComplementRoundTrip(n: int64)
    ensures FromTwosComplement64(TwosComplement64(n)) == n
  {
  }
}
