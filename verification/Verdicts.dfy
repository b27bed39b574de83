/**
 * How each request ends, as a table over the committed rows: the first line that applies decides, and nothing else
 * in the system has a say, however many other requests are in flight.
 */
module Verdicts {
  import opened Accounts
  import opened Books
  import opened Guarantees
  import opened Identifiers
  import opened Ledger
  import opened LedgerSteps
  import opened Money
  import opened Postings
  import opened Protocol
  import opened Requests
  import opened Results
  import opened Reversals
  import opened Runs
  import opened Store
  import opened Transfers

  /** Whose money an ordinary transfer is: the debited customer's, or the credited one's when the platform pays. */
  function Payer(source: AccountRow, destination: AccountRow): Uuid {
    if source.kind == UserKind then source.owner else destination.owner
  }

  function TransferVerdict(accounts: map<Uuid, AccountRow>, req: Request, at: Timestamp): Option<Error>
    requires req.TransferRequest?
  {
    if req.source !in accounts || req.destination !in accounts then Some(AccountNotFound)
    else
      var source, destination := accounts[req.source], accounts[req.destination];
      if source.kind == SystemKind && destination.kind == SystemKind then Some(SystemToSystemTransfer)
      else if req.requestedBy != Payer(source, destination) then Some(AccountOwnership)
      else if req.source == req.destination then Some(SelfTransfer)
      else if !(source.currency == destination.currency == req.amount.currency) then Some(CurrencyMismatch)
      else if req.amount.amount <= 0 then Some(NonPositiveAmount)
      else if at.Naive? then Some(NaiveTimestamp)
      else if source.kind == UserKind && source.status == Closed then Some(AccountNotOperable)
      else if source.kind == UserKind && source.balance < req.amount.amount then Some(InsufficientFunds)
      else if destination.kind == UserKind && destination.status == Closed then Some(AccountNotOperable)
      else None
  }

  function ReversalVerdict(db: Db, req: Request, at: Timestamp): Option<Error>
    requires req.RevertRequest?
  {
    match FindTransfer(db.transfers, req.transferId)
    case None => Some(TransferNotFound)
    case Some(original) =>
      if at.Naive? then Some(NaiveTimestamp)
      else if !Open(db, original.source) || !Open(db, original.destination) then Some(AccountNotOperable)
      else if Reversed(db.transfers, original.id) then Some(TransferAlreadyReversed)
      else None
  }

  function CloseVerdict(accounts: map<Uuid, AccountRow>, req: Request): Option<Error>
    requires req.CloseRequest?
  {
    if req.accountId !in accounts then Some(AccountNotFound)
    else
      var row := accounts[req.accountId];
      if row.kind == SystemKind || row.owner != req.callerId then Some(AccountOwnership)
      else if row.status == Closed then Some(AccountNotClosable)
      else if row.balance != 0 then Some(AccountNotEmpty)
      else None
  }

  /** `at` is what the call read off the clock. */
  function Verdict(db: Db, req: Request, at: Timestamp): Option<Error> {
    if req.CloseRequest? then CloseVerdict(db.accounts, req)
    else if req.RevertRequest? && req.executedBy != ADMIN_PRINCIPAL_ID then Some(UnauthorizedPrincipal)
    else if req.RetryKey() in db.records then
      if db.records[req.RetryKey()].hash == req.Canonical() then None else Some(IdempotencyConflict)
    else if req.TransferRequest? then TransferVerdict(db.accounts, req, at)
    else ReversalVerdict(db, req, at)
  }

  /** What a success looks like: a closed account, the recorded transfer again, or a new one as asked. */
  ghost predicate Granted(db: Db, req: Request, m: Minted, outcome: Outcome) {
    if req.CloseRequest? then
      && outcome.AccountClosed? && req.accountId in db.accounts
      && var row := db.accounts[req.accountId];
      outcome.account == User(req.accountId, row.owner, row.purpose, row.currency, Money(0, row.currency), Closed,
                              row.version + 1)
    else
      && outcome.Returned?
      && if req.RetryKey() in db.records then
           outcome.transfer.id == db.records[req.RetryKey()].transferId && outcome.transfer in db.transfers
         else
           && Attributed(req, m, outcome.transfer) && TwoLegs(outcome.transfer)
           && if req.TransferRequest? then
                && outcome.transfer.source == req.source && outcome.transfer.destination == req.destination
                && outcome.transfer.amount == req.amount && outcome.transfer.reverses.None?
              else exists original :: original in db.transfers && original.id == req.transferId
                                      && Mirrors(outcome.transfer, original)
  }

  ghost predicate Decided(db: Db, req: Request, m: Minted, outcome: Outcome) {
    match Verdict(db, req, m.at)
    case Some(e) => outcome == Failed(e)
    case None => Granted(db, req, m, outcome)
  }

  lemma RowReads(db: Db, a: Uuid)
    requires RowsOk(db) && a in db.accounts
    ensures ReadAccount(db.accounts, a).Ok?
    ensures
      var account, row := ReadAccount(db.accounts, a).value, db.accounts[a];
      && account.id == a && account.Valid() && account.owner == row.owner && account.currency == row.currency
      && account.User? == (row.kind == UserKind)
      && (account.User? ==> account.status == row.status && account.balance == Money(row.balance, row.currency)
                            && account.version == row.version)
  {
  }

  /** A posting is refused for the first of these. */
  lemma PostTransferRefusal(
    m: Minted, source: Account, destination: Account, amount: Money, requestedBy: Party, key: string)
    requires source.Valid() && destination.Valid()
    ensures
      var r := PostTransfer(m, source, destination, amount, requestedBy, key);
      if source.id == destination.id then r == Err(SelfTransfer)
      else if !(source.currency == destination.currency == amount.currency) then r == Err(CurrencyMismatch)
      else if amount.amount <= 0 then r == Err(NonPositiveAmount)
      else if m.at.Naive? then r == Err(NaiveTimestamp)
      else if !Operable(source) then r == Err(AccountNotOperable)
      else if source.User? && source.balance.amount < amount.amount then r == Err(InsufficientFunds)
      else if !Operable(destination) then r == Err(AccountNotOperable)
      else r.Ok?
  {
    hide Checked;
    TransferPostsIff(m, source, destination, amount, requestedBy, key);
  }

  /** A reversal posting is refused for the first of these; legs that are not the original's come before all. */
  lemma PostReversalRefusal(
    original: Transfer, m: Minted, source: Account, destination: Account, requestedBy: Party, key: string)
    requires source.Valid() && destination.Valid() && TwoLegs(original)
    requires source.User? ==> source.currency == original.amount.currency
    requires destination.User? ==> destination.currency == original.amount.currency
    ensures
      var r := PostReversal(original, m, source, destination, requestedBy, key);
      if source.id != original.destination || destination.id != original.source then r == Err(ReversalMismatch)
      else if m.at.Naive? then r == Err(NaiveTimestamp)
      else if !Operable(source) || !Operable(destination) then r == Err(AccountNotOperable)
      else r.Ok?
  {
    hide Checked;
    ReversalPostsIff(original, m, source, destination, requestedBy, key);
  }

  lemma PreparedTransfer(db: Db, req: Request, m: Minted)
    requires RowsOk(db) && req.TransferRequest?
    ensures
      match TransferVerdict(db.accounts, req, m.at)
      case Some(e) => Prepare(db, req, m) == Err(e)
      case None => Prepare(db, req, m).Ok?
  {
    hide PostTransfer, AccountRow.AsDomain, Account.Valid;
    if req.source in db.accounts && req.destination in db.accounts {
      RowReads(db, req.source);
      RowReads(db, req.destination);
      var source := ReadAccount(db.accounts, req.source).value;
      var destination := ReadAccount(db.accounts, req.destination).value;
      PostTransferRefusal(m, source, destination, req.amount, Owner(req.requestedBy), req.key);
    }
  }

  lemma TransferDecided(db: Db, req: Request, m: Minted)
    requires Sound(db) && req.TransferRequest? && req.RetryKey() !in db.records
    ensures Decided(db, req, m, Execute(db, req, m).outcome)
  {
    hide Prepare, TransferVerdict, Sound;
    SoundParts(db);
    PreparedTransfer(db, req, m);
    if Prepare(db, req, m).Ok? {
      var _, _, _ := PreparedLegs(db, req, m, Prepare(db, req, m).value);
    }
  }

  lemma ReversalDecided(db: Db, req: Request, m: Minted)
    requires Sound(db) && req.RevertRequest? && req.executedBy == ADMIN_PRINCIPAL_ID
    requires req.RetryKey() !in db.records
    ensures Decided(db, req, m, Execute(db, req, m).outcome)
  {
    hide Sound, RowsOk, TransfersOk, UniqueIds, Open, Reversed, Post;
    SoundParts(db);
    FoundIsThere(db.transfers, req.transferId);
    if FindTransfer(db.transfers, req.transferId).Some? {
      ReversalGoesThrough(db, req, m, FindTransfer(db.transfers, req.transferId).value);
      if Prepare(db, req, m).Ok? {
        var _, _, _ := PreparedLegs(db, req, m, Prepare(db, req, m).value);
      }
    }
  }

  lemma CloseDecided(db: Db, req: Request, m: Minted)
    requires RowsOk(db) && req.CloseRequest?
    ensures Decided(db, req, m, Execute(db, req, m).outcome)
  {
    if req.accountId in db.accounts {
      RowReads(db, req.accountId);
    }
  }

  lemma ReplayDecided(db: Db, req: Request, m: Minted)
    requires Recorded(db) && req.MovesMoney() && req.RetryKey() in db.records
    requires req.RevertRequest? ==> req.executedBy == ADMIN_PRINCIPAL_ID
    ensures Decided(db, req, m, Execute(db, req, m).outcome)
  {
    ReplayOfRecorded(db, db.records[req.RetryKey()], req.Canonical());
  }

  lemma ExecuteDecided(db: Db, req: Request, m: Minted)
    requires Sound(db)
    ensures Decided(db, req, m, Execute(db, req, m).outcome)
  {
    hide Decided, Execute;
    if req.CloseRequest? {
      CloseDecided(db, req, m);
    } else if req.RevertRequest? && req.executedBy != ADMIN_PRINCIPAL_ID {
      StrangerDecided(db, req, m);
    } else if req.RetryKey() in db.records {
      ReplayDecided(db, req, m);
    } else if req.TransferRequest? {
      TransferDecided(db, req, m);
    } else {
      ReversalDecided(db, req, m);
    }
  }

  lemma StrangerDecided(db: Db, req: Request, m: Minted)
    requires req.RevertRequest? && req.executedBy != ADMIN_PRINCIPAL_ID
    ensures Decided(db, req, m, Execute(db, req, m).outcome)
  {
  }

  /**
   * Every call that ends, in any interleaving, ends as the table says for the rows committed at one moment of its own
   * lifetime: refused for the first line that applies, and granted exactly when none does.
   */
  lemma EveryOutcomeDecided(run: seq<State>, i: nat, id: Uuid) returns (k: nat)
    requires IsRun(run) && i < |run| && id in run[i].calls
    requires run[i].calls[id].phase.Finished?
    ensures k < i && id in run[k].calls && run[k].calls[id].Open()
    ensures Decided(run[k].db, run[i].calls[id].request, run[i].calls[id].minted, run[i].calls[id].phase.outcome)
  {
    hide Decided, Execute, Sound;
    k := CompletionPoint(run, i, id);
    ExecuteDecided(run[k].db, run[i].calls[id].request, run[i].calls[id].minted);
  }
}
