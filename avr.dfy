/** Machine types shared by the two firmware programs. */
module Avr {
  /** An unsigned 8-bit value, the C type `uint8_t`. */
  type Byte = x: int | 0 <= x < 256
}
