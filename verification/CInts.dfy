/** The 32-bit int and the signed 8-bit char of the programs, and division in C. */
module CInts {

  const INT_MAX: int := 0x7fff_ffff
  const INT_MIN: int := -0x8000_0000

  /** Conversion of an int to char, also the value memset stores. */
  function ToChar(x: int): (c: int)
    ensures -128 <= c < 128 && (c - x) % 256 == 0
    ensures -128 <= x < 128 <==> c == x
  {
    (x + 128) % 256 - 128
  }

  /** Conversion of a long to int. */
  function ToInt(x: int): (i: int)
    ensures INT_MIN <= i <= INT_MAX && (i - x) % 0x1_0000_0000 == 0
    ensures INT_MIN <= x <= INT_MAX ==> i == x
  {
    (x - INT_MIN) % 0x1_0000_0000 + INT_MIN
  }

  /** x / d, which is rounded towards zero. */
  function Quot(x: int, d: int): int
    requires d != 0
  {
    if x >= 0 then x / d else -(-x / d)
  }

  /** x % d, with the sign of x. */
  function Rem(x: int, d: int): int
    requires d != 0
  {
    x - d * Quot(x, d)
  }
}
