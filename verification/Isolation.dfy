/**
 * What each open call may rely on while others run: its key stays unused, the rows it locked stay as granted,
 * unlocked reads keep their identity, and its own slot stays free. Every step of every call keeps all of it.
 */
module Isolation {
  import opened Accounts
  import opened Identifiers
  import opened Ledger
  import opened Protocol
  import opened Requests
  import opened Results
  import opened Store
  import opened Transfers

  /** Equal but for balance, status and version. */
  predicate SameIdentity(a: Account, b: Account) {
    && a.id == b.id && a.owner == b.owner && a.purpose == b.purpose && a.currency == b.currency
    && a.User? == b.User?
  }

  /** An unlocked read still names the row it came from. */
  predicate ReadAs(accounts: map<Uuid, AccountRow>, id: Uuid, a: Account) {
    && ReadAccount(accounts, id).Ok?
    && SameIdentity(a, ReadAccount(accounts, id).value)
  }

  /** A granted lock: the held account is the committed row, now. */
  predicate HeldRow(accounts: map<Uuid, AccountRow>, id: Uuid, a: UserAccount) {
    a.id == id && ReadAccount(accounts, id) == Ok(a)
  }

  function Elements(ids: seq<Uuid>): set<Uuid> {
    set id | id in ids
  }

  /** The locks granted so far are a prefix of the lock order, and what is pending is the rest of it. */
  predicate GrantedSoFar(
    accounts: map<Uuid, AccountRow>, order: seq<Uuid>, held: map<Uuid, UserAccount>, pending: seq<Uuid>)
  {
    && |pending| <= |order|
    && pending == order[|order| - |pending|..]
    && held.Keys == Elements(order[..|order| - |pending|])
    && forall id | id in held :: HeldRow(accounts, id, held[id])
  }

  predicate LocksOk(
    accounts: map<Uuid, AccountRow>, source: Account, destination: Account, held: map<Uuid, UserAccount>,
    pending: seq<Uuid>)
  {
    GrantedSoFar(accounts, LockOrder(source, destination), held, pending)
  }

  /** Every USER leg of the request is among the locked rows. */
  predicate Covers(db: Db, req: Request, rows: set<Uuid>)
    requires req.MovesMoney()
  {
    var original := LoadOriginal(db.transfers, req);
    && original.Ok? && original.value.Some? == req.RevertRequest?
    && forall leg | leg in {SourceId(req, original.value), DestinationId(req, original.value)} ::
         leg in db.accounts && (db.accounts[leg].kind == UserKind ==> leg in rows)
  }

  /** What the phase says of the committed tables. */
  predicate PhaseOk(db: Db, call: Call)
    requires call.WellPhased()
  {
    var req := call.request;
    match call.phase
    case RecordFound(record) => req.RetryKey() in db.records && db.records[req.RetryKey()] == record
    case RaceLost => req.RetryKey() in db.records
    case OriginalLoaded(loaded) => FindTransfer(db.transfers, req.transferId) == Some(loaded)
    case SourceRead(original, source) =>
      && LoadOriginal(db.transfers, req) == Ok(original)
      && ReadAs(db.accounts, SourceId(req, original), source)
    case Locking(original, source, destination, held, pending) =>
      && LoadOriginal(db.transfers, req) == Ok(original)
      && ReadAs(db.accounts, SourceId(req, original), source)
      && ReadAs(db.accounts, DestinationId(req, original), destination)
      && AuthorizeLegs(req, source, destination) == Ok(())
      && LocksOk(db.accounts, source, destination, held, pending)
    case Inserting(p, rows) => Prepare(db, req, call.minted) == Ok(p) && Covers(db, req, rows)
    case Inserted(p, rows) =>
      && Prepare(db, req, call.minted) == Ok(p) && Covers(db, req, rows)
      && !SlotTaken(db.transfers, p.transfer.reverses)
    case CloseRead =>
      && ReadAccount(db.accounts, req.accountId).Ok?
      && ReadAccount(db.accounts, req.accountId).value.User?
      && ReadAccount(db.accounts, req.accountId).value.owner == req.callerId
    case CloseLocked(a) => HeldRow(db.accounts, req.accountId, a) && a.owner == req.callerId
    case _ => true
  }

  ghost predicate FreshId(db: Db, id: Uuid) {
    forall t | t in db.transfers :: t.id != id
  }

  ghost predicate CallOk(db: Db, id: Uuid, call: Call) {
    && call.WellPhased()
    && call.minted.transferId == id
    && (!call.phase.Finished? ==> FreshId(db, id))
    && (call.HoldsKey() ==> call.request.RetryKey() !in db.records)
    && (call.Open() && !call.phase.Begun? && call.request.RevertRequest? ==>
          call.request.executedBy == ADMIN_PRINCIPAL_ID)
    && PhaseOk(db, call)
  }

  /** All a step may change of the tables: rows and records it owns, one appended transfer of its own. */
  ghost predicate Frame(db: Db, db': Db, owns: Resources, id: Uuid) {
    && (forall a | a in db.accounts && a !in owns.rows :: a in db'.accounts && db'.accounts[a] == db.accounts[a])
    && (forall a | ReadAccount(db.accounts, a).Ok? :: ReadAs(db'.accounts, a, ReadAccount(db.accounts, a).value))
    && (db'.transfers == db.transfers
        || exists t :: db'.transfers == db.transfers + [t] && t.id == id && Slot(t.reverses) <= owns.slots)
    && (forall k | k in db.records :: k in db'.records && db'.records[k] == db.records[k])
    && (forall k | k in db'.records :: k in db.records || k in owns.keys)
  }

  /** A transfer that appears is the actor's own first. */
  ghost predicate ActorIsNew(db: Db, db': Db, actor: Uuid) {
    db'.transfers != db.transfers ==> FreshId(db, actor)
  }

  // ---- one call is untouched by another's step

  lemma FindAppended(transfers: seq<Transfer>, t: Transfer, id: Uuid)
    requires t.id != id
    ensures FindTransfer(transfers + [t], id) == FindTransfer(transfers, id)
  {
    assert (transfers + [t])[..|transfers|] == transfers;
  }

  lemma FreshAfter(db: Db, db': Db, owns: Resources, actor: Uuid, id: Uuid)
    requires Frame(db, db', owns, actor) && (db'.transfers != db.transfers ==> id != actor) && FreshId(db, id)
    ensures FreshId(db', id)
  {
  }

  /** A transfer found before is found after. */
  lemma LoadStable(db: Db, db': Db, owns: Resources, actor: Uuid, req: Request)
    requires Frame(db, db', owns, actor) && ActorIsNew(db, db', actor)
    requires LoadOriginal(db.transfers, req).Ok?
    ensures LoadOriginal(db'.transfers, req) == LoadOriginal(db.transfers, req)
  {
    if req.RevertRequest? && db'.transfers != db.transfers {
      FoundIsThere(db.transfers, req.transferId);
      var t :| db'.transfers == db.transfers + [t] && t.id == actor;
      FindAppended(db.transfers, t, req.transferId);
    }
  }

  lemma SlotStable(db: Db, db': Db, owns: Resources, actor: Uuid, reverses: Option<Uuid>)
    requires Frame(db, db', owns, actor) && Slot(reverses) !! owns.slots
    requires !SlotTaken(db.transfers, reverses)
    ensures !SlotTaken(db'.transfers, reverses)
  {
  }

  lemma PrepareStable(db: Db, db': Db, owns: Resources, actor: Uuid, req: Request, m: Minted, rows: set<Uuid>)
    requires Frame(db, db', owns, actor) && ActorIsNew(db, db', actor)
    requires req.MovesMoney() && Prepare(db, req, m).Ok? && Covers(db, req, rows) && rows !! owns.rows
    ensures Prepare(db', req, m) == Prepare(db, req, m) && Covers(db', req, rows)
  {
    LoadStable(db, db', owns, actor, req);
    var original := LoadOriginal(db.transfers, req).value;
    LegStable(db, db', owns, actor, SourceId(req, original), rows);
    LegStable(db, db', owns, actor, DestinationId(req, original), rows);
  }

  lemma LegStable(db: Db, db': Db, owns: Resources, actor: Uuid, leg: Uuid, rows: set<Uuid>)
    requires Frame(db, db', owns, actor) && rows !! owns.rows
    requires leg in db.accounts && (db.accounts[leg].kind == UserKind ==> leg in rows)
    requires ReadAccount(db.accounts, leg).Ok?
    ensures ReadAccount(db'.accounts, leg) == ReadAccount(db.accounts, leg)
    ensures leg in db'.accounts && db'.accounts[leg].kind == db.accounts[leg].kind
  {
    if leg in owns.rows {
      assert db.accounts[leg].kind == SystemKind;
      assert ReadAs(db'.accounts, leg, ReadAccount(db.accounts, leg).value);
    }
  }

  lemma LocksStable(
    db: Db, db': Db, owns: Resources, actor: Uuid, order: seq<Uuid>, held: map<Uuid, UserAccount>, pending: seq<Uuid>)
    requires Frame(db, db', owns, actor) && held.Keys !! owns.rows
    requires GrantedSoFar(db.accounts, order, held, pending)
    ensures GrantedSoFar(db'.accounts, order, held, pending)
  {
    forall a | a in held ensures HeldRow(db'.accounts, a, held[a]) {
      LegStable(db, db', owns, actor, a, held.Keys);
    }
  }

  lemma ReadStable(db: Db, db': Db, owns: Resources, actor: Uuid, id: Uuid, a: Account)
    requires Frame(db, db', owns, actor) && ReadAs(db.accounts, id, a)
    ensures ReadAs(db'.accounts, id, a)
  {
  }

  lemma PhaseUndisturbed(db: Db, db': Db, owns: Resources, actor: Uuid, call: Call)
    requires Frame(db, db', owns, actor) && ActorIsNew(db, db', actor)
    requires call.WellPhased() && PhaseOk(db, call) && call.Owns().Disjoint(owns)
    ensures PhaseOk(db', call)
  {
    hide Prepare, LockOrder, ReadAs, FindTransfer;
    match call.phase
    case OriginalLoaded(_) => LoadStable(db, db', owns, actor, call.request);
    case SourceRead(original, source) =>
      LoadStable(db, db', owns, actor, call.request);
      ReadStable(db, db', owns, actor, SourceId(call.request, original), source);
    case Locking(original, source, destination, held, pending) =>
      LoadStable(db, db', owns, actor, call.request);
      ReadStable(db, db', owns, actor, SourceId(call.request, original), source);
      ReadStable(db, db', owns, actor, DestinationId(call.request, original), destination);
      LocksStable(db, db', owns, actor, LockOrder(source, destination), held, pending);
    case Inserting(_, rows) => PrepareStable(db, db', owns, actor, call.request, call.minted, rows);
    case Inserted(p, rows) =>
      PrepareStable(db, db', owns, actor, call.request, call.minted, rows);
      SlotStable(db, db', owns, actor, p.transfer.reverses);
    case CloseRead => CloseReadStable(db, db', owns, actor, call.request.accountId);
    case CloseLocked(a) => LegStable(db, db', owns, actor, a.id, {a.id});
    case _ =>
  }

  lemma CloseReadStable(db: Db, db': Db, owns: Resources, actor: Uuid, id: Uuid)
    requires Frame(db, db', owns, actor) && ReadAccount(db.accounts, id).Ok?
    ensures ReadAccount(db'.accounts, id).Ok?
    ensures SameIdentity(ReadAccount(db.accounts, id).value, ReadAccount(db'.accounts, id).value)
  {
  }

  /** Whatever another call does, this one may still rely on all it relied on. */
  lemma Undisturbed(db: Db, db': Db, owns: Resources, actor: Uuid, id: Uuid, call: Call)
    requires Frame(db, db', owns, actor) && ActorIsNew(db, db', actor)
    requires db'.transfers != db.transfers ==> id != actor
    requires CallOk(db, id, call) && call.Owns().Disjoint(owns)
    ensures CallOk(db', id, call)
  {
    hide PhaseOk;
    PhaseUndisturbed(db, db', owns, actor, call);
    if !call.phase.Finished? {
      FreshAfter(db, db', owns, actor, id);
    }
  }
}
