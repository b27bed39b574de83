/** Outcomes of a step that may be refused, and every refusal the service can raise. */
module Results {

  datatype Option<+T> = None | Some(value: T) {
    predicate IsFailure() { None? }

    function PropagateFailure<U>(): Option<U>
      requires None?
    {
      None
    }

    function Extract(): T
      requires Some?
    {
      value
    }
  }

  datatype Error =
    // value objects
    | CurrencyMismatch
    | NonPositiveAmount
    | NaiveTimestamp
    // accounts
    | InvalidAccountPurpose
    | InvalidVersion
    | AccountNotOperable
    | EntryAccountMismatch
    | EntryDirectionMismatch
    | InsufficientFunds
    | AccountNotClosable
    | AccountNotEmpty
    | AccountOwnership
    // transfers
    | SelfTransfer
    | MalformedTransfer
    | UnbalancedTransfer
    | ReversalMismatch
    // use cases and repositories
    | AccountNotFound
    | AccountVanished
    | AccountAlreadyExists
    | TransferNotFound
    | TransferAlreadyReversed
    | SystemToSystemTransfer
    | UnauthorizedPrincipal
    | IdempotencyConflict
    | IdempotencyRecordConflict
    | RecordVanished
    | RecordWithoutTransfer
    | RepositoryFailure

  /** Failure-compatible: `var x :- e;` stops at the first refusal, as a raised exception does. */
  datatype Result<+T> = Ok(value: T) | Err(error: Error) {
    predicate IsFailure() { Err? }

    function PropagateFailure<U>(): Result<U>
      requires Err?
    {
      Err(error)
    }

    function Extract(): T
      requires Ok?
    {
      value
    }
  }
}
