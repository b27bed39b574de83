/** The refusals the code raises only defensively, shown never to be raised. */
module Refusals {
  import opened Accounts
  import opened Books
  import opened Guarantees
  import opened Identifiers
  import opened Ledger
  import opened Money
  import opened Postings
  import opened Protocol
  import opened Requests
  import opened Results
  import opened Reversals
  import opened Runs
  import opened Store
  import opened Transfers

  /** Guards against a bug in the code itself, not against a caller. */
  predicate Internal(e: Error) {
    e in {
      RecordVanished, RecordWithoutTransfer, AccountVanished, IdempotencyRecordConflict, EntryAccountMismatch,
      EntryDirectionMismatch, MalformedTransfer, UnbalancedTransfer, ReversalMismatch, InvalidAccountPurpose,
      InvalidVersion, AccountAlreadyExists}
  }

  lemma TransferRefusals(
    m: Minted, source: Account, destination: Account, amount: Money, requestedBy: Party, key: string)
    requires source.Valid() && destination.Valid()
    ensures PostTransfer(m, source, destination, amount, requestedBy, key).Err? ==>
      PostTransfer(m, source, destination, amount, requestedBy, key).error in
        {SelfTransfer, CurrencyMismatch, NonPositiveAmount, NaiveTimestamp, AccountNotOperable, InsufficientFunds}
  {
    hide Checked;
    TransferPostsIff(m, source, destination, amount, requestedBy, key);
  }

  /** Of a transfer on the books, a reversal posting can only be refused for its clock or a closed account. */
  lemma ReversalRefusals(
    original: Transfer, m: Minted, source: Account, destination: Account, requestedBy: Party, key: string)
    requires source.Valid() && destination.Valid() && TwoLegs(original)
    requires source.id == original.destination && destination.id == original.source
    requires source.currency == original.amount.currency == destination.currency
    ensures PostReversal(original, m, source, destination, requestedBy, key).Err? ==>
      PostReversal(original, m, source, destination, requestedBy, key).error in {NaiveTimestamp, AccountNotOperable}
  {
    hide Checked;
    ReversalPostsIff(original, m, source, destination, requestedBy, key);
  }

  lemma ReadRefusals(db: Db, id: Uuid)
    requires RowsOk(db)
    ensures ReadAccount(db.accounts, id).Err? ==> ReadAccount(db.accounts, id).error == AccountNotFound
    ensures ReadAccount(db.accounts, id).Ok? ==> ReadAccount(db.accounts, id).value.Valid()
    ensures ReadAccount(db.accounts, id).Ok? ==> ReadAccount(db.accounts, id).value.id == id
  {
  }

  lemma PrepareRefusals(db: Db, req: Request, m: Minted)
    requires RowsOk(db) && TransfersOk(db) && req.MovesMoney() && Prepare(db, req, m).Err?
    ensures !Internal(Prepare(db, req, m).error)
    ensures req.RevertRequest? ==>
      Prepare(db, req, m).error in {TransferNotFound, NaiveTimestamp, AccountNotOperable}
  {
    hide PostTransfer, PostReversal;
    match req
    case TransferRequest(source, destination, amount, key, requestedBy) =>
      ReadRefusals(db, source);
      ReadRefusals(db, destination);
      if ReadAccount(db.accounts, source).Ok? && ReadAccount(db.accounts, destination).Ok? {
        TransferRefusals(m, ReadAccount(db.accounts, source).value, ReadAccount(db.accounts, destination).value, amount,
                         Owner(requestedBy), key);
      }
    case RevertRequest(transferId, key, executedBy) =>
      FoundIsThere(db.transfers, transferId);
      if FindTransfer(db.transfers, transferId).Some? {
        var original := FindTransfer(db.transfers, transferId).value;
        assert Grounded(db.accounts, original);
        ReadGrounded(db, original);
        ReversalRefusals(original, m, ReadAccount(db.accounts, original.destination).value,
                         ReadAccount(db.accounts, original.source).value, Principal(executedBy), key);
      }
  }

  lemma ExecuteRefusals(db: Db, req: Request, m: Minted)
    requires RowsOk(db) && TransfersOk(db) && Recorded(db) && Execute(db, req, m).outcome.Failed?
    ensures !Internal(Execute(db, req, m).outcome.error)
  {
    hide Prepare;
    if req.CloseRequest? {
      ReadRefusals(db, req.accountId);
    } else if req.RetryKey() in db.records {
      ReplayOfRecorded(db, db.records[req.RetryKey()], req.Canonical());
    } else if Prepare(db, req, m).Err? {
      PrepareRefusals(db, req, m);
    }
  }

  /** In no run does any call end with one of the refusals the code marks as defensive. */
  lemma NeverInternal(run: seq<State>, i: nat, id: Uuid)
    requires IsRun(run) && i < |run| && id in run[i].calls
    requires run[i].calls[id].phase.Finished? && run[i].calls[id].phase.outcome.Failed?
    ensures !Internal(run[i].calls[id].phase.outcome.error)
  {
    hide Execute;
    var k := CompletionPoint(run, i, id);
    ExecuteRefusals(run[k].db, run[i].calls[id].request, run[i].calls[id].minted);
  }
}
