/** Vocabulary shared by the codec, the processing state and the CSV log. */
module Common {

  /** A byte on the serial link. */
  type Byte = bv8

  /** A 16-bit Modbus register. */
  type Word = bv16

  /** `None` stands for the source's `None` (or `[]`) returned after a logged failure. */
  datatype Option<+T> = None | Some(value: T)

  function Min(a: int, b: int): int {
    if a <= b then a else b
  }

  /** A register from two bytes, most significant first: `(hi << 8) | lo`. */
  function BigEndianWord(hi: Byte, lo: Byte): (w: Word)
    ensures (w >> 8) as Byte == hi && (w & 0xFF) as Byte == lo
  {
    ((hi as Word) << 8) | (lo as Word)
  }
}
