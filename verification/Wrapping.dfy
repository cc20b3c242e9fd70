/** The 64-bit counters of the driver. */
module Wrapping {

  /** They wrap at this value. */
  const WRAP := 0x1_0000_0000_0000_0000
}
