/**
 * Identifiers (src/id.rs). A client is named by a 16-bit unsigned integer and a
 * transaction by a 32-bit unsigned integer; the newtypes keep them apart from
 * plain numbers, and the ledger only ever compares them for equality.
 */
module Ids {
  /** The raw integer widths carried by an input record. */
  type Uint16 = x: int | 0 <= x < 0x1_0000
  type Uint32 = x: int | 0 <= x < 0x1_0000_0000

  newtype ClientId = Uint16
  newtype TxId = Uint32
}
