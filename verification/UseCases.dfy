/**
 * The use cases as they run against a unit of work, statement by statement, with the database to themselves. Each is
 * held to the atomic ledger: same tables, same outcome.
 */
module UseCases {
  import opened Accounts
  import opened Identifiers
  import opened Isolation
  import opened Ledger
  import opened Money
  import opened Postings
  import opened Protocol
  import opened Requests
  import opened Results
  import opened Store
  import opened Transfers
  import opened UnitsOfWork

  method ReplayOrConflict(uow: UnitOfWork, existing: Record, hash: string) returns (o: Outcome)
    requires uow.Valid()
    ensures o == Replay(uow.session.View(), existing, hash)
  {
    if existing.hash != hash {
      return Failed(IdempotencyConflict);
    }
    var found := uow.transfers.Get(existing.transferId);
    match found
    case None => return Failed(RecordWithoutTransfer);
    case Some(t) => return Returned(t);
  }

  /**
   * Locks the customer legs, in the one order every other call locks them in too. However their balances, statuses and
   * versions moved since they were read, both legs come back as the tables now have them.
   */
  method LockUserAccounts(uow: UnitOfWork, source: Account, destination: Account)
    returns (r: Result<(Account, Account)>)
    requires uow.Valid()
    requires ReadAs(uow.session.accounts, source.id, source)
    requires ReadAs(uow.session.accounts, destination.id, destination)
    modifies uow.session`locks
    ensures r.Ok?
    ensures ReadAccount(uow.session.accounts, source.id) == Ok(r.value.0)
    ensures ReadAccount(uow.session.accounts, destination.id) == Ok(r.value.1)
    ensures uow.session.locks == old(uow.session.locks) + LockOrder(source, destination)
  {
    var ids := UserIds(source, destination);
    var granted := uow.accounts.GetManyForUpdate(ids);
    var locked := granted.value;
    assert locked.Keys == ids;
    ghost var taken :| TakenInOrder(taken, ids) && uow.session.locks == old(uow.session.locks) + taken;
    LockOrderAscends(source, destination);
    OneOrder(taken, LockOrder(source, destination), ids);
    var unchecked := ids;
    while unchecked != {}
      invariant unchecked <= ids
      decreases |unchecked|
    {
      var id :| id in unchecked;
      if id !in locked {
        return Err(AccountNotFound);
      }
      unchecked := unchecked - {id};
    }
    return Ok((LockedLeg(locked, source), LockedLeg(locked, destination)));
  }

  function UserIds(source: Account, destination: Account): set<Uuid> {
    (if source.User? then {source.id} else {}) + (if destination.User? then {destination.id} else {})
  }

  lemma LockOrderAscends(source: Account, destination: Account)
    ensures TakenInOrder(LockOrder(source, destination), UserIds(source, destination))
  {
  }

  method Authorized(req: Request, source: Account, destination: Account) returns (r: Result<()>)
    requires req.TransferRequest?
    ensures r == AuthorizeLegs(req, source, destination)
  {
    if source.User? {
      return if source.owner == req.requestedBy then Ok(()) else Err(AccountOwnership);
    }
    if destination.User? {
      return if destination.owner == req.requestedBy then Ok(()) else Err(AccountOwnership);
    }
    return Err(SystemToSystemTransfer);
  }

  /** Hands each repository its part of the posting. */
  method WritePosting(uow: UnitOfWork, p: Posting) returns (r: Result<()>)
    requires uow.Valid()
    modifies uow.session`accounts, uow.session`transfers
    ensures r == if SlotTaken(old(uow.session.transfers), p.transfer.reverses) then Err(TransferAlreadyReversed)
                 else Ok(())
    ensures r.Ok? ==> uow.session.transfers == old(uow.session.transfers) + [Stored(p.transfer)]
    ensures r.Ok? ==> uow.session.accounts == UpdateAll(old(uow.session.accounts), p.accounts)
  {
    r := uow.transfers.Add(p.transfer);
    if r.Err? {
      return;
    }
    for i := 0 to |p.accounts|
      invariant uow.session.transfers == old(uow.session.transfers) + [Stored(p.transfer)]
      invariant uow.session.accounts == UpdateAll(old(uow.session.accounts), p.accounts[..i])
    {
      assert p.accounts[..i + 1][..i] == p.accounts[..i];
      uow.accounts.Update(p.accounts[i]);
    }
    assert p.accounts[..|p.accounts|] == p.accounts;
  }

  /** The outcome is that of the atomic use case, and a success leaves the session holding exactly its tables. */
  twostate predicate PostedAs(uow: UnitOfWork, req: Request, m: Minted, o: Outcome)
    requires req.MovesMoney()
    reads uow.session
  {
    && o == PostNew(old(uow.session.View()), req, m).outcome
    && (!o.Failed? ==> uow.session.View() == PostNew(old(uow.session.View()), req, m).db)
  }

  /** A key recorded since it was looked up collides at the insert, before anything else is done. */
  twostate predicate PostedUnlessRaced(uow: UnitOfWork, req: Request, m: Minted, o: Outcome)
    requires req.MovesMoney()
    reads uow.session
  {
    if req.RetryKey() in old(uow.session.records) then o == Failed(IdempotencyRecordConflict)
    else PostedAs(uow, req, m, o)
  }

  method PostNewTransfer(uow: UnitOfWork, req: Request, m: Minted) returns (o: Outcome)
    requires uow.Valid() && req.TransferRequest?
    modifies uow.session
    ensures PostedUnlessRaced(uow, req, m, o)
  {
    ghost var before := uow.session.View();
    var reserved := uow.idempotency.Add(req.RetryKey(), Record(req.Canonical(), m.transferId, m.at));
    if reserved.Err? {
      return Failed(reserved.error);
    }
    var source := uow.accounts.Get(req.source);
    if source.Err? {
      return Failed(source.error);
    }
    var destination := uow.accounts.Get(req.destination);
    if destination.Err? {
      return Failed(destination.error);
    }
    var authorized := Authorized(req, source.value, destination.value);
    if authorized.Err? {
      return Failed(authorized.error);
    }
    var locked := LockUserAccounts(uow, source.value, destination.value);
    var posting := PostTransfer(
      m, locked.value.0, locked.value.1, req.amount, Owner(req.requestedBy), req.key);
    if posting.Err? {
      return Failed(posting.error);
    }
    assert Prepare(before, req, m) == posting;
    var written := WritePosting(uow, posting.value);
    if written.Err? {
      return Failed(written.error);
    }
    return Returned(posting.value.transfer);
  }

  method PostNewReversal(uow: UnitOfWork, req: Request, m: Minted) returns (o: Outcome)
    requires uow.Valid() && req.RevertRequest?
    modifies uow.session
    ensures PostedUnlessRaced(uow, req, m, o)
  {
    ghost var before := uow.session.View();
    var reserved := uow.idempotency.Add(req.RetryKey(), Record(req.Canonical(), m.transferId, m.at));
    if reserved.Err? {
      return Failed(reserved.error);
    }
    var original := uow.transfers.Get(req.transferId);
    if original.None? {
      return Failed(TransferNotFound);
    }
    var source := uow.accounts.Get(original.value.destination);
    if source.Err? {
      return Failed(source.error);
    }
    var destination := uow.accounts.Get(original.value.source);
    if destination.Err? {
      return Failed(destination.error);
    }
    var locked := LockUserAccounts(uow, source.value, destination.value);
    var posting := PostReversal(
      original.value, m, locked.value.0, locked.value.1, Principal(req.executedBy), req.key);
    if posting.Err? {
      return Failed(posting.error);
    }
    assert Prepare(before, req, m) == posting;
    var written := WritePosting(uow, posting.value);
    if written.Err? {
      return Failed(written.error);
    }
    return Returned(posting.value.transfer);
  }

  lemma PostIsNoRace(req: Request, original: Option<Transfer>, source: Account, destination: Account, m: Minted)
    requires req.MovesMoney() && (req.RevertRequest? ==> original.Some?)
    ensures Post(req, original, source, destination, m) != Err(IdempotencyRecordConflict)
  {
    hide WellShaped, Nets;
  }

  lemma ReadIsNoRace(accounts: map<Uuid, AccountRow>, id: Uuid)
    ensures ReadAccount(accounts, id) != Err(IdempotencyRecordConflict)
  {
  }

  /** Posting refuses for many reasons, but never for the one that means a lost insert race. */
  lemma PostingIsNoRace(db: Db, req: Request, m: Minted)
    requires req.MovesMoney()
    ensures PostNew(db, req, m).outcome != Failed(IdempotencyRecordConflict)
  {
    hide Post, ReadAccount;
    if LoadOriginal(db.transfers, req).Ok? {
      var original := LoadOriginal(db.transfers, req).value;
      var source := ReadAccount(db.accounts, SourceId(req, original));
      var destination := ReadAccount(db.accounts, DestinationId(req, original));
      ReadIsNoRace(db.accounts, SourceId(req, original));
      ReadIsNoRace(db.accounts, DestinationId(req, original));
      if source.Ok? && destination.Ok? {
        PostIsNoRace(req, original, source.value, destination.value, m);
      }
    }
  }

  /** The second transaction of a call that lost the insert race: a fresh lookup, answered from what it finds. */
  method ReplayWinner(database: Database, req: Request) returns (o: Outcome)
    requires req.MovesMoney()
    modifies database
    ensures database.Tables() == old(database.Tables())
    ensures o == if req.RetryKey() in database.records
                 then Replay(database.Tables(), database.records[req.RetryKey()], req.Canonical())
                 else Failed(RecordVanished)
  {
    var uow := new UnitOfWork(database);
    var existing := uow.idempotency.FindByKey(req.RetryKey());
    match existing {
      case None => o := Failed(RecordVanished);
      case Some(record) => o := ReplayOrConflict(uow, record, req.Canonical());
    }
    uow.Exit(o.Failed?);
  }

  /** The call is answered by its first lookup, or refused before it. */
  predicate AnsweredAtOnce(db: Db, req: Request)
    requires req.MovesMoney()
  {
    (req.RevertRequest? && req.executedBy != ADMIN_PRINCIPAL_ID) || req.RetryKey() in db.records
  }

  /**
   * A transfer or a reversal from start to finish: look the key up, replay or post, commit or roll back, and after a
   * lost insert race replay the winner. `meanwhile` is what other transactions have committed by the time the key,
   * found free, is inserted: the call ends as the atomic ledger would on those tables.
   */
  method MoveMoney(database: Database, req: Request, m: Minted, meanwhile: Db) returns (o: Outcome)
    requires req.MovesMoney()
    modifies database
    ensures Executed(database.Tables(), o)
         == Execute(if AnsweredAtOnce(old(database.Tables()), req) then old(database.Tables()) else meanwhile, req, m)
  {
    hide PostNew, Replay, Request.Canonical, Request.RetryKey;
    if req.RevertRequest? && req.executedBy != ADMIN_PRINCIPAL_ID {
      return Failed(UnauthorizedPrincipal);
    }
    var uow := new UnitOfWork(database);
    var existing := uow.idempotency.FindByKey(req.RetryKey());
    if existing.Some? {
      o := ReplayOrConflict(uow, existing.value, req.Canonical());
      uow.Exit(o.Failed?);
      return;
    }
    database.Replace(meanwhile);
    uow.session.Refresh(meanwhile);
    if req.TransferRequest? {
      o := PostNewTransfer(uow, req, m);
    } else {
      o := PostNewReversal(uow, req, m);
    }
    PostingIsNoRace(meanwhile, req, m);
    PostingFailsClean(meanwhile, req, m);
    uow.Exit(o.Failed?);
    if o == Failed(IdempotencyRecordConflict) {
      o := ReplayWinner(database, req);
    }
  }

  lemma PostingFailsClean(db: Db, req: Request, m: Minted)
    requires req.MovesMoney()
    ensures PostNew(db, req, m).outcome.Failed? ==> PostNew(db, req, m).db == db
  {
  }

  /** Closing: the owner is checked on an unlocked read, the balance under the lock. */
  method CloseAccount(database: Database, req: Request, m: Minted) returns (o: Outcome)
    requires req.CloseRequest?
    modifies database
    ensures Executed(database.Tables(), o) == Execute(old(database.Tables()), req, m)
  {
    var uow := new UnitOfWork(database);
    o := CloseIn(uow, req);
    uow.Exit(o.Failed?);
  }

  method CloseIn(uow: UnitOfWork, req: Request) returns (o: Outcome)
    requires uow.Valid() && req.CloseRequest?
    modifies uow.session
    ensures o == ExecuteClose(old(uow.session.View()), req).outcome
    ensures !o.Failed? ==> uow.session.View() == ExecuteClose(old(uow.session.View()), req).db
  {
    var read := uow.accounts.Get(req.accountId);
    if read.Err? {
      return Failed(read.error);
    }
    if !read.value.User? || read.value.owner != req.callerId {
      return Failed(AccountOwnership);
    }
    var locked := uow.accounts.GetForUpdate(req.accountId);
    var closed := ApplyClose(locked.value);
    if closed.Err? {
      return Failed(closed.error);
    }
    uow.accounts.Update(closed.value);
    return AccountClosed(closed.value);
  }

  predicate HoldsNaturalKey(
    accounts: map<Uuid, AccountRow>, id: Uuid, owner: Uuid, purpose: Purpose, currency: Currency)
  {
    && id in accounts && accounts[id].owner == owner && accounts[id].purpose == purpose
    && accounts[id].currency == currency
  }

  /** An existing account, marked as not created now. */
  function HandedBack(read: Result<Account>): Result<(Account, bool)> {
    var account :- read;
    Ok((account, false))
  }

  /**
   * Opening: an account the owner already has is handed back; otherwise one is inserted, unless another opening of the
   * same one, committed `meanwhile`, is there first.
   */
  method OpenAccount(
    database: Database, id: Uuid, owner: Uuid, purpose: Purpose, currency: Currency, meanwhile: Db)
    returns (r: Result<(Account, bool)>)
    modifies database
    ensures NaturalKeyTaken(old(database.accounts), owner, purpose, currency) ==>
      database.Tables() == old(database.Tables())
      && exists held :: HoldsNaturalKey(old(database.accounts), held, owner, purpose, currency)
                        && r == HandedBack(ReadAccount(old(database.accounts), held))
    ensures !NaturalKeyTaken(old(database.accounts), owner, purpose, currency) ==>
      && database.Tables() == ExecuteOpen(meanwhile, id, owner, purpose, currency)
      && r == if purpose != Checking && purpose != Savings then Err(InvalidAccountPurpose)
              else if NaturalKeyTaken(meanwhile.accounts, owner, purpose, currency) then Err(AccountAlreadyExists)
              else if id in meanwhile.accounts then Err(RepositoryFailure)
              else Ok((User(id, owner, purpose, currency, Money(0, currency), Active, 0), true))
  {
    PurposesByKind(purpose);
    var session := new Session(database.Tables());
    var accounts := new AccountRepository(session);
    var existing := accounts.FindByNaturalKey(owner, purpose, currency);
    if existing.Some? {
      var found := accounts.Get(existing.value);
      assert HoldsNaturalKey(old(database.accounts), existing.value, owner, purpose, currency);
      return if found.Ok? then Ok((found.value, false)) else Err(found.error);
    }
    database.Replace(meanwhile);
    session.Refresh(meanwhile);
    var account := OpenUser(id, owner, purpose, currency);
    if account.Err? {
      return Err(account.error);
    }
    var added := accounts.Add(account.value);
    if added.Err? {
      return Err(added.error);
    }
    database.Replace(session.View());
    return Ok((account.value, true));
  }
}
