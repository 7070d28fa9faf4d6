/** An optional value, and the widths of the counters and clocks of the firmware. */
module Common {
  datatype Option<T> = None | Some(value: T)

  const UINT32: nat := 0x1_0000_0000
  const UINT64: nat := 0x1_0000_0000_0000_0000
}
