/** Fixed-width unsigned integers: octets, as Node's `Buffer` and `uint8_t` hold them, and the
    firmware's `uint64_t`. */
module Bytes {
  type Byte = b: int | 0 <= b < 256

  type UInt64 = n: int | 0 <= n < 0x1_0000_0000_0000_0000
}
