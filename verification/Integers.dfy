/** The unsigned integer widths the framework relies on: the first value each type cannot hold. */
module Integers {
  const U16_LIMIT: nat := 0x1_0000
  const U64_LIMIT: nat := 0x1_0000_0000_0000_0000
  const USIZE_LIMIT: nat := U64_LIMIT
}
