/**
 * Every call that ends, with whatever outcome, ends as if it had run alone at its last statement: the tables and
 * the outcome are those of the atomic use case. Calls that crash leave the tables as they were.
 */
module Linearization {
  import opened Accounts
  import opened Identifiers
  import opened Isolation
  import opened Ledger
  import opened LedgerSteps
  import opened Postings
  import opened Protocol
  import opened Requests
  import opened Results
  import opened Store
  import opened Transfers

  // ---- locked legs are the committed rows

  lemma UserLegIsOrdered(source: Account, destination: Account, leg: Account)
    requires (leg == source || leg == destination) && leg.User?
    ensures leg.id in LockOrder(source, destination)
  {
  }

  lemma LockedLegIsCurrent(
    accounts: map<Uuid, AccountRow>, order: seq<Uuid>, held: map<Uuid, UserAccount>, leg: Account)
    requires GrantedSoFar(accounts, order, held, [])
    requires leg.User? ==> leg.id in order
    requires ReadAs(accounts, leg.id, leg)
    ensures ReadAccount(accounts, leg.id) == Ok(LockedLeg(held, leg))
    ensures accounts[leg.id].kind == UserKind ==> leg.id in held
    ensures SameIdentity(leg, LockedLeg(held, leg))
  {
    assert order[..|order|] == order;
    if leg.id in held {
      assert HeldRow(accounts, leg.id, held[leg.id]);
    }
  }

  /** With every USER leg locked, posting the held accounts is what the use case would prepare right now. */
  lemma PostIsPrepare(db: Db, id: Uuid, call: Call)
    requires CallOk(db, id, call) && call.phase.Locking? && call.phase.pending == []
    ensures
      var Locking(original, source, destination, held, _) := call.phase;
      && Post(call.request, original, LockedLeg(held, source), LockedLeg(held, destination), call.minted)
         == Prepare(db, call.request, call.minted)
      && Covers(db, call.request, held.Keys)
  {
    var Locking(original, source, destination, held, _) := call.phase;
    var order := LockOrder(source, destination);
    if source.User? { UserLegIsOrdered(source, destination, source); }
    if destination.User? { UserLegIsOrdered(source, destination, destination); }
    LockedLegIsCurrent(db.accounts, order, held, source);
    LockedLegIsCurrent(db.accounts, order, held, destination);
    SameLegsPrepare(db, call.request, original, source, destination, LockedLeg(held, source),
                    LockedLeg(held, destination), call.minted);
  }

  lemma SameLegsPrepare(
    db: Db, req: Request, original: Option<Transfer>, source: Account, destination: Account, source': Account,
    destination': Account, m: Minted)
    requires req.MovesMoney() && original.Some? == req.RevertRequest?
    requires LoadOriginal(db.transfers, req) == Ok(original)
    requires ReadAccount(db.accounts, SourceId(req, original)) == Ok(source')
    requires ReadAccount(db.accounts, DestinationId(req, original)) == Ok(destination')
    requires SameIdentity(source, source') && SameIdentity(destination, destination')
    requires AuthorizeLegs(req, source, destination) == Ok(())
    ensures Prepare(db, req, m) == Post(req, original, source', destination', m)
  {
  }

  lemma OrderedRowsGrant(accounts: map<Uuid, AccountRow>, source: Account, destination: Account, id: Uuid)
    requires ReadAs(accounts, source.id, source) && ReadAs(accounts, destination.id, destination)
    requires id in LockOrder(source, destination)
    ensures ReadForUpdate(accounts, id).Ok? && HeldRow(accounts, id, ReadForUpdate(accounts, id).value)
  {
  }

  lemma PendingHeadIsOrdered(
    accounts: map<Uuid, AccountRow>, order: seq<Uuid>, held: map<Uuid, UserAccount>, pending: seq<Uuid>)
    requires GrantedSoFar(accounts, order, held, pending) && pending != []
    ensures pending[0] in order
  {
    assert pending[0] == order[|order| - |pending|];
  }

  lemma GrantKeepsLocks(
    accounts: map<Uuid, AccountRow>, order: seq<Uuid>, held: map<Uuid, UserAccount>, pending: seq<Uuid>,
    row: UserAccount)
    requires GrantedSoFar(accounts, order, held, pending) && pending != []
    requires HeldRow(accounts, pending[0], row)
    ensures GrantedSoFar(accounts, order, held[pending[0] := row], pending[1..])
  {
    var n := |order| - |pending|;
    assert pending[0] == order[n];
    assert order[..n + 1] == order[..n] + [order[n]];
    assert pending[1..] == order[n + 1..];
  }

  // ---- one step of one call

  ghost predicate StepOk(db: Db, id: Uuid, call: Call, acted: Acted) {
    && call.WellPhased()
    && CallOk(acted.db, id, call.(phase := acted.phase))
    && Frame(db, acted.db, call.Owns(), id)
    && (acted.phase.Finished? ==>
          Execute(db, call.request, call.minted) == Executed(acted.db, acted.phase.outcome))
    && (!acted.phase.Finished? ==> acted.db == db)
  }

  lemma NothingChanged(db: Db, owns: Resources, id: Uuid)
    ensures Frame(db, db, owns, id)
  {
  }

  /** Moving a row's balance leaves its identity, and leaves other rows entirely. */
  lemma MovedKeepsIdentity(row: AccountRow, a: Uuid, t: Transfer)
    requires TwoLegs(t) && row.AsDomain(a).Ok?
    ensures Moved(row, a, t).AsDomain(a).Ok?
    ensures SameIdentity(row.AsDomain(a).value, Moved(row, a, t).AsDomain(a).value)
  {
    MovedByLegs(row, a, t);
  }

  lemma PostsFrame(db: Db, db': Db, t: Transfer, owns: Resources)
    requires Posts(db, t, db') && Records(db, t, db')
    requires Key(t.requestedBy.value, t.key) in owns.keys && Slot(t.reverses) <= owns.slots
    requires forall leg | leg in {t.source, t.destination} :: db.accounts[leg].kind == UserKind ==> leg in owns.rows
    ensures Frame(db, db', owns, t.id)
  {
    forall a | a in db.accounts && a !in owns.rows ensures db'.accounts[a] == db.accounts[a] {
      MovedByLegs(db.accounts[a], a, t);
    }
    forall a | ReadAccount(db.accounts, a).Ok? ensures ReadAs(db'.accounts, a, ReadAccount(db.accounts, a).value) {
      MovedKeepsIdentity(db.accounts[a], a, t);
    }
    assert db'.transfers == db.transfers + [t];
  }

  lemma PublishFrame(db: Db, id: Uuid, call: Call)
    requires CallOk(db, id, call) && call.phase.Inserted?
    ensures Frame(db, Publish(db, call.request, call.minted, call.phase.posting), call.Owns(), id)
  {
    var p := call.phase.posting;
    PublishPosts(db, call.request, call.minted, p);
    var _, _, _ := PreparedLegs(db, call.request, call.minted, p);
    PostsFrame(db, Publish(db, call.request, call.minted, p), Stored(p.transfer), call.Owns());
  }

  lemma CloseFrame(db: Db, id: Uuid, call: Call)
    requires CallOk(db, id, call) && call.phase.CloseLocked? && ApplyClose(call.phase.account).Ok?
    ensures Frame(db, db.(accounts := UpdateAccount(db.accounts, ApplyClose(call.phase.account).value)),
                  call.Owns(), id)
  {
  }

  lemma StepBegun(db: Db, id: Uuid, call: Call)
    requires CallOk(db, id, call) && call.phase.Begun?
    ensures StepOk(db, id, call, Act(db, call))
  {
    NothingChanged(db, call.Owns(), id);
  }

  lemma StepKeyed(db: Db, id: Uuid, call: Call)
    requires CallOk(db, id, call) && (call.phase.KeyAbsent? || call.phase.RecordFound? || call.phase.RaceLost?)
    ensures StepOk(db, id, call, Act(db, call))
  {
    NothingChanged(db, call.Owns(), id);
  }

  lemma StepReserved(db: Db, id: Uuid, call: Call)
    requires CallOk(db, id, call) && call.phase.Reserved?
    ensures StepOk(db, id, call, Act(db, call))
  {
    NothingChanged(db, call.Owns(), id);
  }

  lemma StepOriginalLoaded(db: Db, id: Uuid, call: Call)
    requires CallOk(db, id, call) && call.phase.OriginalLoaded?
    ensures StepOk(db, id, call, Act(db, call))
  {
    NothingChanged(db, call.Owns(), id);
  }

  /** Who may move the money depends only on what an unlocked read cannot get wrong. */
  lemma AuthorizedByIdentity(req: Request, source: Account, current: Account)
    requires SameIdentity(source, current)
    ensures forall destination :: AuthorizeLegs(req, source, destination) == AuthorizeLegs(req, current, destination)
  {
  }

  lemma StepSourceRead(db: Db, id: Uuid, call: Call)
    requires CallOk(db, id, call) && call.phase.SourceRead?
    ensures StepOk(db, id, call, Act(db, call))
  {
    NothingChanged(db, call.Owns(), id);
    var SourceRead(original, source) := call.phase;
    AuthorizedByIdentity(call.request, source, ReadAccount(db.accounts, SourceId(call.request, original)).value);
    var acted := Act(db, call);
    if acted.phase.Locking? {
      var order := LockOrder(source, acted.phase.destination);
      assert order[0..] == order && order[..0] == [];
    }
  }

  /** Reserving the key is open to this call, and past every check that comes before it. */
  predicate Unrecorded(db: Db, req: Request) {
    && req.MovesMoney() && req.RetryKey() !in db.records
    && (req.RevertRequest? ==> req.executedBy == ADMIN_PRINCIPAL_ID)
  }

  lemma RefusedWhenUnprepared(db: Db, req: Request, m: Minted)
    requires Unrecorded(db, req) && Prepare(db, req, m).Err?
    ensures Execute(db, req, m) == Executed(db, Failed(Prepare(db, req, m).error))
  {
  }

  lemma RefusedWhenSlotTaken(db: Db, req: Request, m: Minted, p: Posting)
    requires Unrecorded(db, req) && Prepare(db, req, m) == Ok(p) && SlotTaken(db.transfers, p.transfer.reverses)
    ensures Execute(db, req, m) == Executed(db, Failed(TransferAlreadyReversed))
  {
  }

  lemma PublishedWhenPrepared(db: Db, req: Request, m: Minted, p: Posting)
    requires Unrecorded(db, req) && Prepare(db, req, m) == Ok(p) && !SlotTaken(db.transfers, p.transfer.reverses)
    ensures Execute(db, req, m) == Executed(Publish(db, req, m, p), Returned(p.transfer))
  {
  }

  lemma PostingActs(db: Db, id: Uuid, call: Call)
    requires CallOk(db, id, call) && call.phase.Locking? && call.phase.pending == []
    ensures Covers(db, call.request, call.phase.held.Keys)
    ensures
      match Prepare(db, call.request, call.minted)
      case Err(e) => Act(db, call) == Ends(db, Failed(e))
      case Ok(p) => Act(db, call) == Acted(db, Inserting(p, call.phase.held.Keys))
  {
    PostIsPrepare(db, id, call);
  }

  lemma StepPosting(db: Db, id: Uuid, call: Call)
    requires CallOk(db, id, call) && call.phase.Locking? && call.phase.pending == []
    ensures StepOk(db, id, call, Act(db, call))
  {
    hide Prepare, Post, Execute;
    NothingChanged(db, call.Owns(), id);
    PostingActs(db, id, call);
    if Prepare(db, call.request, call.minted).Err? {
      RefusedWhenUnprepared(db, call.request, call.minted);
    }
  }

  lemma ReadAsItself(accounts: map<Uuid, AccountRow>, id: Uuid, a: Account)
    requires ReadAs(accounts, id, a)
    ensures a.id == id
  {
  }

  lemma LockingLegs(db: Db, id: Uuid, call: Call)
    requires CallOk(db, id, call) && call.phase.Locking?
    ensures
      var Locking(_, source, destination, held, pending) := call.phase;
      && ReadAs(db.accounts, source.id, source) && ReadAs(db.accounts, destination.id, destination)
      && LocksOk(db.accounts, source, destination, held, pending)
  {
    hide ReadAs, LocksOk, AuthorizeLegs, LoadOriginal, FreshId;
    var Locking(original, source, destination, _, _) := call.phase;
    ReadAsItself(db.accounts, SourceId(call.request, original), source);
    ReadAsItself(db.accounts, DestinationId(call.request, original), destination);
  }

  /** The row at the head of the queue is there to be locked, so a wait ends in a grant. */
  lemma GrantActs(db: Db, id: Uuid, call: Call) returns (row: UserAccount)
    requires CallOk(db, id, call) && call.phase.Locking? && call.phase.pending != []
    ensures HeldRow(db.accounts, call.phase.pending[0], row)
    ensures
      var Locking(original, source, destination, held, pending) := call.phase;
      Act(db, call) == Acted(db, Locking(original, source, destination, held[pending[0] := row], pending[1..]))
  {
    hide ReadForUpdate, Post, PhaseOk, ReadAs, HeldRow, LockOrder;
    LockingLegs(db, id, call);
    var Locking(_, source, destination, held, pending) := call.phase;
    PendingHeadIsOrdered(db.accounts, LockOrder(source, destination), held, pending);
    OrderedRowsGrant(db.accounts, source, destination, pending[0]);
    row := ReadForUpdate(db.accounts, pending[0]).value;
  }

  lemma StepGranting(db: Db, id: Uuid, call: Call)
    requires CallOk(db, id, call) && call.phase.Locking? && call.phase.pending != []
    ensures StepOk(db, id, call, Act(db, call))
  {
    hide Act, Execute, Frame, GrantedSoFar, ReadAs, HeldRow, AuthorizeLegs, LoadOriginal, LockOrder;
    NothingChanged(db, call.Owns(), id);
    var row := GrantActs(db, id, call);
    var Locking(_, source, destination, held, pending) := call.phase;
    GrantKeepsLocks(db.accounts, LockOrder(source, destination), held, pending, row);
  }

  lemma StepInserting(db: Db, id: Uuid, call: Call)
    requires CallOk(db, id, call) && call.phase.Inserting?
    ensures StepOk(db, id, call, Act(db, call))
  {
    hide Prepare, Execute;
    NothingChanged(db, call.Owns(), id);
    if SlotTaken(db.transfers, call.phase.posting.transfer.reverses) {
      RefusedWhenSlotTaken(db, call.request, call.minted, call.phase.posting);
    }
  }

  lemma StepInserted(db: Db, id: Uuid, call: Call)
    requires CallOk(db, id, call) && call.phase.Inserted?
    ensures StepOk(db, id, call, Act(db, call))
  {
    hide Prepare, Execute;
    PublishFrame(db, id, call);
    PublishedWhenPrepared(db, call.request, call.minted, call.phase.posting);
  }

  lemma StepClosing(db: Db, id: Uuid, call: Call)
    requires CallOk(db, id, call) && (call.phase.CloseRead? || call.phase.CloseLocked?)
    ensures StepOk(db, id, call, Act(db, call))
  {
    if call.phase.CloseLocked? && ApplyClose(call.phase.account).Ok? {
      CloseFrame(db, id, call);
    } else {
      NothingChanged(db, call.Owns(), id);
    }
  }

  /** One step of a call keeps what it relies on, stays in its frame, and, if it ends the call, is atomic. */
  lemma Step(db: Db, id: Uuid, call: Call)
    requires CallOk(db, id, call) && call.Open()
    ensures StepOk(db, id, call, Act(db, call))
  {
    match call.phase
    case Begun => StepBegun(db, id, call);
    case KeyAbsent => StepKeyed(db, id, call);
    case RecordFound(_) => StepKeyed(db, id, call);
    case RaceLost => StepKeyed(db, id, call);
    case Reserved => StepReserved(db, id, call);
    case OriginalLoaded(_) => StepOriginalLoaded(db, id, call);
    case SourceRead(_, _) => StepSourceRead(db, id, call);
    case Locking(_, _, _, _, pending) =>
      if pending == [] { StepPosting(db, id, call); } else { StepGranting(db, id, call); }
    case Inserting(_, _) => StepInserting(db, id, call);
    case Inserted(_, _) => StepInserted(db, id, call);
    case CloseRead => StepClosing(db, id, call);
    case CloseLocked(_) => StepClosing(db, id, call);
  }
}
