/** Fixed-width integers of C. */
module Words {

  type byte = x: int | 0 <= x < 256
  type uint16 = x: int | 0 <= x < 65536
  type int16 = x: int | -32768 <= x < 32768
  type uint32 = x: int | 0 <= x < 0x1_0000_0000

  /** A word from its two bytes. */
  function Word(low: byte, high: byte): uint16 { low + 256 * high }

  /** Conversion of an int to int16_t: the number that differs from it by a multiple
      of 65536 */
  function ToInt16(x: int): (y: int16)
    ensures (x - y) % 65536 == 0
  {
    (x + 32768) % 65536 - 32768
  }

  /** Division in C, which rounds towards zero: the remainder is smaller than the
      divisor and has the sign of the dividend. */
  function TruncatedDiv(a: int, b: int): (q: int)
    requires b > 0
    ensures if a >= 0 then 0 <= a - q * b < b else 0 <= q * b - a < b
  {
    if a >= 0 then a / b else -(-a / b)
  }
}
