/**
 * The ledger as it would behave if requests ran one at a time: each use case as one atomic function of the
 * committed tables. The step-by-step protocol and the imperative use cases are both held to it.
 */
module Ledger {
  import opened Accounts
  import opened Identifiers
  import opened Money
  import opened Postings
  import opened Requests
  import opened Results
  import opened Store
  import opened Transfers

  datatype Outcome =
    | Returned(transfer: Transfer)
    | AccountClosed(account: UserAccount)
    | Failed(error: Error)

  datatype Executed = Executed(db: Db, outcome: Outcome)

  /** Same key, same payload: the recorded transfer again. Same key, other payload: a conflict. */
  function Replay(db: Db, record: Record, hash: string): Outcome {
    if record.hash != hash then Failed(IdempotencyConflict)
    else
      match FindTransfer(db.transfers, record.transferId)
      case None => Failed(RecordWithoutTransfer)
      case Some(t) => Returned(t)
  }

  /** Ownership is asked of the debited leg, or of the credited one when the platform is debited. */
  function Authorize(source: Account, destination: Account, caller: Uuid): Result<()> {
    if source.User? then (if caller == source.owner then Ok(()) else Err(AccountOwnership))
    else if destination.User? then (if caller == destination.owner then Ok(()) else Err(AccountOwnership))
    else Err(SystemToSystemTransfer)
  }

  /** The transfer a reversal names; nothing for an ordinary transfer. */
  function LoadOriginal(transfers: seq<Transfer>, req: Request): Result<Option<Transfer>> {
    if !req.RevertRequest? then Ok(None)
    else
      match FindTransfer(transfers, req.transferId)
      case None => Err(TransferNotFound)
      case Some(t) => Ok(Some(t))
  }

  function SourceId(req: Request, original: Option<Transfer>): Uuid
    requires req.MovesMoney() && (req.RevertRequest? ==> original.Some?)
  {
    if req.TransferRequest? then req.source else original.value.destination
  }

  function DestinationId(req: Request, original: Option<Transfer>): Uuid
    requires req.MovesMoney() && (req.RevertRequest? ==> original.Some?)
  {
    if req.TransferRequest? then req.destination else original.value.source
  }

  /** Only a transfer asks who owns the legs; a reversal was authorized before it started. */
  function AuthorizeLegs(req: Request, source: Account, destination: Account): Result<()> {
    if req.TransferRequest? then Authorize(source, destination, req.requestedBy) else Ok(())
  }

  function Post(req: Request, original: Option<Transfer>, source: Account, destination: Account, m: Minted)
    : Result<Posting>
    requires req.MovesMoney() && (req.RevertRequest? ==> original.Some?)
  {
    match req
    case TransferRequest(_, _, amount, key, requestedBy) =>
      PostTransfer(m, source, destination, amount, Owner(requestedBy), key)
    case RevertRequest(_, key, executedBy) =>
      PostReversal(original.value, m, source, destination, Principal(executedBy), key)
  }

  /** Everything between reserving the key and writing the posting. */
  function Prepare(db: Db, req: Request, m: Minted): Result<Posting>
    requires req.MovesMoney()
  {
    var original :- LoadOriginal(db.transfers, req);
    var source :- ReadAccount(db.accounts, SourceId(req, original));
    var destination :- ReadAccount(db.accounts, DestinationId(req, original));
    var _ :- AuthorizeLegs(req, source, destination);
    Post(req, original, source, destination, m)
  }

  /** The three tables after the posting, its record and its accounts are published together. */
  function Publish(db: Db, req: Request, m: Minted, p: Posting): Db
    requires req.MovesMoney()
  {
    Db(UpdateAll(db.accounts, p.accounts),
       db.transfers + [Stored(p.transfer)],
       db.records[req.RetryKey() := Record(req.Canonical(), m.transferId, m.at)])
  }

  function PostNew(db: Db, req: Request, m: Minted): Executed
    requires req.MovesMoney()
  {
    match Prepare(db, req, m)
    case Err(e) => Executed(db, Failed(e))
    case Ok(p) =>
      if SlotTaken(db.transfers, p.transfer.reverses) then Executed(db, Failed(TransferAlreadyReversed))
      else Executed(Publish(db, req, m, p), Returned(p.transfer))
  }

  function ExecuteClose(db: Db, req: Request): Executed
    requires req.CloseRequest?
  {
    match ReadAccount(db.accounts, req.accountId)
    case Err(e) => Executed(db, Failed(e))
    case Ok(a) =>
      if !a.User? || a.owner != req.callerId then Executed(db, Failed(AccountOwnership))
      else
        match ApplyClose(a)
        case Err(e) => Executed(db, Failed(e))
        case Ok(closed) =>
          Executed(db.(accounts := UpdateAccount(db.accounts, closed)), AccountClosed(closed))
  }

  /** One request, start to finish, with the tables to itself. */
  function Execute(db: Db, req: Request, m: Minted): Executed {
    if req.CloseRequest? then ExecuteClose(db, req)
    else if req.RevertRequest? && req.executedBy != ADMIN_PRINCIPAL_ID then Executed(db, Failed(UnauthorizedPrincipal))
    else if req.RetryKey() in db.records then
      Executed(db, Replay(db, db.records[req.RetryKey()], req.Canonical()))
    else PostNew(db, req, m)
  }

  /** The natural key an owner may hold once. */
  predicate NaturalKeyTaken(accounts: map<Uuid, AccountRow>, owner: Uuid, purpose: Purpose, currency: Currency) {
    exists id :: id in accounts && accounts[id].owner == owner && accounts[id].purpose == purpose
                 && accounts[id].currency == currency
  }

  /** Opening: a no-op when the id or the natural key exists, a refusal for a platform purpose, else one new row. */
  function ExecuteOpen(db: Db, id: Uuid, owner: Uuid, purpose: Purpose, currency: Currency): Db {
    if id in db.accounts || NaturalKeyTaken(db.accounts, owner, purpose, currency) then db
    else
      match OpenUser(id, owner, purpose, currency)
      case Err(_) => db
      case Ok(a) => db.(accounts := db.accounts[id := RowOf(a)])
  }
}
