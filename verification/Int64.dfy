/** The range of Go's int64, and of its int on a 64-bit host. */
module Int64 {
  const TWO_TO_63 := 0x8000_0000_0000_0000
  const TWO_TO_64 := 0x1_0000_0000_0000_0000
}
