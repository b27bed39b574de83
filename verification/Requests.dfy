/** What callers ask for, and the canonical text a retry is recognised by. */
module Requests {
  import opened Identifiers
  import opened Money
  import opened Texts

  datatype Request =
    | TransferRequest(source: Uuid, destination: Uuid, amount: Money, key: string, requestedBy: Uuid)
    | RevertRequest(transferId: Uuid, key: string, executedBy: Uuid)
    | CloseRequest(accountId: Uuid, callerId: Uuid)
  {
    predicate MovesMoney() { !CloseRequest? }

    function RetryKey(): Key
      requires MovesMoney()
    {
      match this
      case TransferRequest(_, _, _, key, requestedBy) => Key(requestedBy, key)
      case RevertRequest(_, key, executedBy) => Key(executedBy, key)
    }

    /** The text the code hashes; the hash is taken to be collision-free. */
    function Canonical(): string
      requires MovesMoney()
    {
      match this
      case TransferRequest(source, destination, amount, _, _) =>
        UuidText(source) + "|" + UuidText(destination) + "|" + IntText(amount.amount) + "|" + amount.currency
      case RevertRequest(transferId, _, _) => UuidText(transferId)
    }
  }

  /** Two requests are reserved under one key exactly when the same caller sent the same key, whole. */
  lemma SameKeyIff(r: Request, s: Request)
    requires r.MovesMoney() && s.MovesMoney()
    ensures r.RetryKey() == s.RetryKey() <==>
      && r.key == s.key
      && (if r.TransferRequest? then r.requestedBy else r.executedBy)
         == (if s.TransferRequest? then s.requestedBy else s.executedBy)
    ensures r.RetryKey() == Key(if r.TransferRequest? then r.requestedBy else r.executedBy, r.key)
  {
  }
}
