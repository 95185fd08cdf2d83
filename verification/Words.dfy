/** Bytes and machine words, as the wire, the sentinel byte and the address text use them. */
module Words {
  type byte = b: int | 0 <= b < 256
  type uint32 = v: int | 0 <= v < 0x1_0000_0000
  type Bytes = seq<byte>
}
