/**
 * Any number of calls interleaved statement by statement over one READ COMMITTED store. A call's uncommitted
 * writes stay inside its own phase; others see only the rows, keys and slots it holds, and may have to wait.
 */
module Protocol {
  import opened Accounts
  import opened Identifiers
  import opened Ledger
  import opened Money
  import opened Postings
  import opened Requests
  import opened Results
  import opened Store
  import opened Transfers

  /** How far a call has come; the last thing done names the phase. */
  datatype Phase =
    | Begun
    | KeyAbsent                        // the key was looked up and had no record
    | RecordFound(record: Record)      // the key was looked up and had one
    | RaceLost                         // the insert met a committed record; rolled back, a second transaction begins
    | Reserved                         // the record is inserted, not committed
    | OriginalLoaded(loaded: Transfer)
    | SourceRead(original: Option<Transfer>, source: Account)
    | Locking(
        original: Option<Transfer>, source: Account, destination: Account, held: map<Uuid, UserAccount>,
        pending: seq<Uuid>)            // both legs read and authorized; USER rows are locked one at a time
    | Inserting(posting: Posting, rows: set<Uuid>)
    | Inserted(posting: Posting, rows: set<Uuid>)
    | CloseRead                        // a close that has checked its owner
    | CloseLocked(account: UserAccount)
    | Finished(outcome: Outcome)
    | Crashed                          // rolled back from outside: a lost connection, a timeout, a cancellation

  /** What an open transaction keeps others from taking. */
  datatype Resources = Resources(keys: set<Key>, rows: set<Uuid>, slots: set<Uuid>) {
    predicate Disjoint(other: Resources) {
      keys !! other.keys && rows !! other.rows && slots !! other.slots
    }
  }

  function Slot(reverses: Option<Uuid>): set<Uuid> {
    match reverses
    case None => {}
    case Some(id) => {id}
  }

  datatype Call = Call(request: Request, minted: Minted, phase: Phase) {
    predicate Open() { !phase.Finished? && !phase.Crashed? }

    /** The phase is one this kind of request goes through. */
    predicate WellPhased() {
      match phase
      case Begun => true
      case KeyAbsent => request.MovesMoney()
      case RecordFound(_) => request.MovesMoney()
      case RaceLost => request.MovesMoney()
      case Reserved => request.MovesMoney()
      case OriginalLoaded(_) => request.RevertRequest?
      case SourceRead(original, _) => request.MovesMoney() && original.Some? == request.RevertRequest?
      case Locking(original, _, _, _, _) => request.MovesMoney() && original.Some? == request.RevertRequest?
      case Inserting(_, _) => request.MovesMoney()
      case Inserted(_, _) => request.MovesMoney()
      case CloseRead => request.CloseRequest?
      case CloseLocked(_) => request.CloseRequest?
      case Finished(_) => true
      case Crashed => true
    }

    /** The key's record is inserted and not yet committed. */
    predicate HoldsKey() {
      phase.Reserved? || phase.OriginalLoaded? || phase.SourceRead? || phase.Locking? || phase.Inserting?
      || phase.Inserted?
    }

    function Owns(): Resources
      requires WellPhased()
    {
      Resources(
        if HoldsKey() then {request.RetryKey()} else {},
        match phase
        case Locking(_, _, _, held, _) => held.Keys
        case Inserting(_, rows) => rows
        case Inserted(_, rows) => rows
        case CloseLocked(a) => {a.id}
        case _ => {},
        if phase.Inserted? then Slot(phase.posting.transfer.reverses) else {})
    }

    /** What the next statement has to take before it can go on. */
    function Wants(): Resources
      requires WellPhased()
    {
      Resources(
        if phase.KeyAbsent? then {request.RetryKey()} else {},
        match phase
        case Locking(_, _, _, _, pending) => if pending == [] then {} else {pending[0]}
        case CloseRead => {request.accountId}
        case _ => {},
        if phase.Inserting? then Slot(phase.posting.transfer.reverses) else {})
    }
  }

  /** The USER legs, each id once, ascending: the order the locking query produces. */
  function LockOrder(source: Account, destination: Account): seq<Uuid> {
    if source.User? && destination.User? then
      if source.id < destination.id then [source.id, destination.id]
      else if destination.id < source.id then [destination.id, source.id]
      else [source.id]
    else if source.User? then [source.id]
    else if destination.User? then [destination.id]
    else []
  }

  /** A locked leg replaces its unlocked read; a SYSTEM leg keeps the snapshot. */
  function LockedLeg(held: map<Uuid, UserAccount>, leg: Account): Account {
    if leg.id in held then held[leg.id] else leg
  }

  datatype Acted = Acted(db: Db, phase: Phase)

  function Ends(db: Db, outcome: Outcome): Acted {
    Acted(db, Finished(outcome))
  }

  /** The gateway, then the key lookup; a close reads its account and checks the owner. */
  function ActBegun(db: Db, request: Request): Acted {
    if request.CloseRequest? then
      match ReadAccount(db.accounts, request.accountId)
      case Err(e) => Ends(db, Failed(e))
      case Ok(a) =>
        if !a.User? || a.owner != request.callerId then Ends(db, Failed(AccountOwnership))
        else Acted(db, CloseRead)
    else if request.RevertRequest? && request.executedBy != ADMIN_PRINCIPAL_ID then
      Ends(db, Failed(UnauthorizedPrincipal))
    else if request.RetryKey() in db.records then Acted(db, RecordFound(db.records[request.RetryKey()]))
    else Acted(db, KeyAbsent)
  }

  function ActRead(db: Db, original: Option<Transfer>, id: Uuid): Acted {
    match ReadAccount(db.accounts, id)
    case Err(e) => Ends(db, Failed(e))
    case Ok(a) => Acted(db, SourceRead(original, a))
  }

  function ActReserved(db: Db, request: Request): Acted
    requires request.MovesMoney()
  {
    match LoadOriginal(db.transfers, request)
    case Err(e) => Ends(db, Failed(e))
    case Ok(None) => ActRead(db, None, request.source)
    case Ok(Some(t)) => Acted(db, OriginalLoaded(t))
  }

  function ActSourceRead(db: Db, request: Request, original: Option<Transfer>, source: Account): Acted
    requires request.MovesMoney() && original.Some? == request.RevertRequest?
  {
    match ReadAccount(db.accounts, DestinationId(request, original))
    case Err(e) => Ends(db, Failed(e))
    case Ok(destination) =>
      match AuthorizeLegs(request, source, destination)
      case Err(e) => Ends(db, Failed(e))
      case Ok(_) => Acted(db, Locking(original, source, destination, map[], LockOrder(source, destination)))
  }

  /** Grants the next row lock, or posts when every USER leg is held. */
  function ActLocking(db: Db, call: Call): Acted
    requires call.phase.Locking? && call.WellPhased()
  {
    var Locking(original, source, destination, held, pending) := call.phase;
    if pending == [] then
      match Post(call.request, original, LockedLeg(held, source), LockedLeg(held, destination), call.minted)
      case Err(e) => Ends(db, Failed(e))
      case Ok(p) => Acted(db, Inserting(p, held.Keys))
    else
      match ReadForUpdate(db.accounts, pending[0])
      case Err(e) => Ends(db, Failed(e))
      case Ok(a) =>
        Acted(db, Locking(original, source, destination, held[pending[0] := a], pending[1..]))
  }

  /** What one call does next, given that it does not have to wait. */
  function Act(db: Db, call: Call): Acted
    requires call.Open() && call.WellPhased()
  {
    match call.phase
    case Begun => ActBegun(db, call.request)
    case KeyAbsent => Acted(db, if call.request.RetryKey() in db.records then RaceLost else Reserved)
    case RecordFound(record) => Ends(db, Replay(db, record, call.request.Canonical()))
    case RaceLost =>
      if call.request.RetryKey() in db.records then Acted(db, RecordFound(db.records[call.request.RetryKey()]))
      else Ends(db, Failed(RecordVanished))
    case Reserved => ActReserved(db, call.request)
    case OriginalLoaded(loaded) => ActRead(db, Some(loaded), loaded.destination)
    case SourceRead(original, source) => ActSourceRead(db, call.request, original, source)
    case Locking(_, _, _, _, _) => ActLocking(db, call)
    case Inserting(p, rows) =>
      if SlotTaken(db.transfers, p.transfer.reverses) then Ends(db, Failed(TransferAlreadyReversed))
      else Acted(db, Inserted(p, rows))
    case Inserted(p, _) => Ends(Publish(db, call.request, call.minted, p), Returned(p.transfer))
    case CloseRead =>
      (match ReadForUpdate(db.accounts, call.request.accountId)
       case Err(e) => Ends(db, Failed(e))
       case Ok(a) => Acted(db, CloseLocked(a)))
    case CloseLocked(a) =>
      (match ApplyClose(a)
       case Err(e) => Ends(db, Failed(e))
       case Ok(closed) =>
         Ends(db.(accounts := UpdateAccount(db.accounts, closed)), AccountClosed(closed)))
  }

  // ---- whole states

  /** One completed piece of work, in completion order. */
  datatype LogEntry =
    | CallEntry(request: Request, minted: Minted, outcome: Outcome)
    | OpenEntry(id: Uuid, owner: Uuid, purpose: Purpose, currency: Currency)

  /** The committed tables, every call by the transfer id it minted, and the history of completions. */
  datatype State = State(db: Db, calls: map<Uuid, Call>, log: seq<LogEntry>)

  ghost predicate WaitsFor(c: Call, d: Call)
    requires c.WellPhased() && d.WellPhased()
  {
    !c.Wants().Disjoint(d.Owns())
  }

  ghost predicate Blocked(s: State, id: Uuid)
    requires id in s.calls && forall i | i in s.calls :: s.calls[i].WellPhased()
  {
    exists other :: other in s.calls && other != id && WaitsFor(s.calls[id], s.calls[other])
  }

  datatype Event =
    | Begin(request: Request, minted: Minted)
    | Advance(id: Uuid)
    | Crash(id: Uuid)
    | OpenAccount(id: Uuid, owner: Uuid, purpose: Purpose, currency: Currency)

  ghost predicate Enabled(s: State, e: Event)
    requires forall i | i in s.calls :: s.calls[i].WellPhased()
  {
    match e
    case Begin(_, minted) =>
      && minted.transferId !in s.calls && (forall t | t in s.db.transfers :: t.id != minted.transferId)
      && minted.debitId != minted.creditId
      && forall i | i in s.calls :: s.calls[i].minted.EntryIds() !! minted.EntryIds()
    case Advance(id) => id in s.calls && s.calls[id].Open() && !Blocked(s, id)
    case Crash(id) => id in s.calls && s.calls[id].Open()
    case OpenAccount(_, _, _, _) => true
  }

  ghost function Take(s: State, e: Event): State
    requires forall i | i in s.calls :: s.calls[i].WellPhased()
    requires Enabled(s, e)
  {
    match e
    case Begin(request, minted) =>
      s.(calls := s.calls[minted.transferId := Call(request, minted, Begun)])
    case Advance(id) =>
      var call := s.calls[id];
      var acted := Act(s.db, call);
      State(acted.db, s.calls[id := call.(phase := acted.phase)],
            if acted.phase.Finished? then s.log + [CallEntry(call.request, call.minted, acted.phase.outcome)]
            else s.log)
    case Crash(id) => s.(calls := s.calls[id := s.calls[id].(phase := Crashed)])
    case OpenAccount(id, owner, purpose, currency) =>
      s.(db := ExecuteOpen(s.db, id, owner, purpose, currency),
         log := s.log + [OpenEntry(id, owner, purpose, currency)])
  }
}
