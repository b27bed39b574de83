/** One leg of a transfer: one account, one direction, one positive amount. */
module Entries {
  import opened Identifiers
  import opened Money
  import opened Results

  datatype Direction = Debit | Credit

  datatype Entry = Entry(
    id: Uuid, transferId: Uuid, accountId: Uuid, direction: Direction, amount: Money, occurredAt: Timestamp)
  {
    /** The only place a sign is derived from a direction. */
    function Signed(): Money {
      if direction == Credit then amount else amount.Neg()
    }
  }

  /** The constructor, with its guards. */
  function MakeEntry(
    id: Uuid, transferId: Uuid, accountId: Uuid, direction: Direction, amount: Money, at: Timestamp): Result<Entry>
  {
    if !amount.IsPositive() then Err(NonPositiveAmount)
    else if at.Naive? then Err(NaiveTimestamp)
    else Ok(Entry(id, transferId, accountId, direction, amount, at))
  }
}
