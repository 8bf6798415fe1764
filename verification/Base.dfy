/** Integer widths, byte strings and optional values. */
module Base {
  const TWO_TO_64 := 0x1_0000_0000_0000_0000

  type uint8 = x: int | 0 <= x < 0x100
  type uint32 = x: int | 0 <= x < 0x1_0000_0000
  type uint64 = x: int | 0 <= x < TWO_TO_64
  type Bytes = seq<uint8>

  datatype Option<+T> = None | Some(value: T)
}
