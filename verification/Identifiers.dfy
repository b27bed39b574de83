/** Identities, callers, instants and the ids one attempt mints. */
module Identifiers {

  /** A UUID, ordered as the 128-bit number it is. */
  type Uuid = n: nat | n < 0x1_0000_0000_0000_0000_0000_0000_0000_0000

  /** Who asked. Two parties of different classes are never equal, even over one UUID. */
  datatype Party = Owner(value: Uuid) | Principal(value: Uuid)

  /** A point in time, with or without a timezone. */
  datatype Timestamp = Aware(micros: int) | Naive(micros: int)

  /** The primary key of an idempotency record. */
  datatype Key = Key(caller: Uuid, text: string)

  /** What one attempt takes from the id generator and the clock. */
  datatype Minted = Minted(transferId: Uuid, debitId: Uuid, creditId: Uuid, at: Timestamp) {
    function EntryIds(): set<Uuid> { {debitId, creditId} }
  }

  /** The platform's one operator principal. */
  const ADMIN_PRINCIPAL_ID: Uuid := 3
}
