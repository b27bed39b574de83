/** The SQL adapters: a database, one session per unit of work, and the repositories bound to that session. */
module UnitsOfWork {
  import opened Accounts
  import opened Identifiers
  import opened Ledger
  import opened Money
  import opened Results
  import opened Store
  import opened Transfers

  class Database {
    var accounts: map<Uuid, AccountRow>
    var transfers: seq<Transfer>
    var records: map<Key, Record>

    constructor (db: Db)
      ensures Tables() == db
    {
      accounts, transfers, records := db.accounts, db.transfers, db.records;
    }

    function Tables(): Db
      reads this
    {
      Db(accounts, transfers, records)
    }

    method Replace(db: Db)
      modifies this
      ensures Tables() == db
    {
      accounts, transfers, records := db.accounts, db.transfers, db.records;
    }
  }

  /** The tables as one open transaction sees them: what was committed, overlaid with its own writes. */
  class Session {
    var accounts: map<Uuid, AccountRow>
    var transfers: seq<Transfer>
    var records: map<Key, Record>
    /** The rows locked so far, in the order the locks were taken. */
    var locks: seq<Uuid>

    constructor (db: Db)
      ensures View() == db && locks == []
    {
      accounts, transfers, records, locks := db.accounts, db.transfers, db.records, [];
    }

    function View(): Db
      reads this
    {
      Db(accounts, transfers, records)
    }

    /** Other transactions commit; under READ COMMITTED the next statement of one that wrote nothing sees it. */
    method Refresh(db: Db)
      modifies this
      ensures View() == db && locks == old(locks)
    {
      accounts, transfers, records := db.accounts, db.transfers, db.records;
    }
  }

  /** Each of `ids` once, ascending. */
  ghost predicate TakenInOrder(taken: seq<Uuid>, ids: set<Uuid>) {
    && (forall id :: id in taken <==> id in ids)
    && forall i, j | 0 <= i < j < |taken| :: taken[i] < taken[j]
  }

  lemma {:induction false} LowestIsThere(ids: set<Uuid>) returns (low: Uuid)
    requires ids != {}
    ensures low in ids && forall id | id in ids :: low <= id
    decreases |ids|
  {
    low :| low in ids;
    if ids != {low} {
      var rest := LowestIsThere(ids - {low});
      assert forall id | id in ids :: id == low || id in ids - {low};
      low := if low < rest then low else rest;
    }
  }

  lemma NoneInOrder(taken: seq<Uuid>, ids: set<Uuid>)
    requires TakenInOrder(taken, ids)
    ensures taken == [] <==> ids == {}
  {
    if taken != [] {
      assert taken[0] in taken;
    }
  }

  /** There is only one ascending order to take a set of rows in. */
  lemma {:induction false} OneOrder(taken: seq<Uuid>, other: seq<Uuid>, ids: set<Uuid>)
    requires TakenInOrder(taken, ids) && TakenInOrder(other, ids)
    ensures taken == other
    decreases |taken|
  {
    NoneInOrder(taken, ids);
    NoneInOrder(other, ids);
    if taken != [] {
      assert taken[0] in other;
      assert other[0] in taken;
      RestInOrder(taken, ids);
      RestInOrder(other, ids);
      OneOrder(taken[1..], other[1..], ids - {taken[0]});
      assert taken == [taken[0]] + taken[1..] && other == [other[0]] + other[1..];
    }
  }

  lemma NextInOrder(taken: seq<Uuid>, ids: set<Uuid>, next: Uuid)
    requires TakenInOrder(taken, ids) && forall id | id in ids :: id < next
    ensures TakenInOrder(taken + [next], ids + {next})
  {
    forall i | 0 <= i < |taken| ensures taken[i] < next {
      assert taken[i] in taken;
    }
  }

  lemma RestInOrder(taken: seq<Uuid>, ids: set<Uuid>)
    requires TakenInOrder(taken, ids) && taken != []
    ensures TakenInOrder(taken[1..], ids - {taken[0]})
    ensures forall id | id in ids :: taken[0] <= id
  {
    assert taken == [taken[0]] + taken[1..];
    forall id ensures id in taken[1..] <==> id in ids - {taken[0]} {
      assert id in taken <==> id == taken[0] || id in taken[1..];
    }
  }

  method LowestOf(ids: set<Uuid>) returns (low: Uuid)
    requires ids != {}
    ensures low in ids && forall id | id in ids :: low <= id
  {
    ghost var there := LowestIsThere(ids);
    low :| low in ids && forall id | id in ids :: low <= id;
  }

  /** Of `ids`, all but `remaining` have been tried, lowest first; `locked` holds those granted, as `taken` lists. */
  ghost predicate Scanned(
    accounts: map<Uuid, AccountRow>, ids: set<Uuid>, remaining: set<Uuid>, locked: map<Uuid, UserAccount>,
    taken: seq<Uuid>)
  {
    && remaining <= ids && TakenInOrder(taken, locked.Keys)
    && (forall id, later | id in locked && later in remaining :: id < later)
    && (forall id :: id in locked <==> id in ids - remaining && ReadForUpdate(accounts, id).Ok?)
    && (forall id | id in locked :: ReadForUpdate(accounts, id) == Ok(locked[id]))
  }

  lemma ScanStarts(accounts: map<Uuid, AccountRow>, ids: set<Uuid>)
    ensures Scanned(accounts, ids, ids, map[], [])
  {
  }

  lemma ScanGranted(
    accounts: map<Uuid, AccountRow>, ids: set<Uuid>, remaining: set<Uuid>, locked: map<Uuid, UserAccount>,
    taken: seq<Uuid>, next: Uuid, row: UserAccount)
    requires Scanned(accounts, ids, remaining, locked, taken)
    requires next in remaining && forall id | id in remaining :: next <= id
    requires ReadForUpdate(accounts, next) == Ok(row)
    ensures Scanned(accounts, ids, remaining - {next}, locked[next := row], taken + [next])
  {
    hide ReadForUpdate, TakenInOrder;
    NextInOrder(taken, locked.Keys, next);
    assert locked[next := row].Keys == locked.Keys + {next};
  }

  lemma ScanSkipped(
    accounts: map<Uuid, AccountRow>, ids: set<Uuid>, remaining: set<Uuid>, locked: map<Uuid, UserAccount>,
    taken: seq<Uuid>, next: Uuid)
    requires Scanned(accounts, ids, remaining, locked, taken) && next in remaining
    requires ReadForUpdate(accounts, next).Err?
    ensures Scanned(accounts, ids, remaining - {next}, locked, taken)
  {
    hide ReadForUpdate, TakenInOrder;
  }

  lemma ScanEnds(accounts: map<Uuid, AccountRow>, ids: set<Uuid>, locked: map<Uuid, UserAccount>, taken: seq<Uuid>)
    requires Scanned(accounts, ids, {}, locked, taken)
    ensures locked.Keys == set id | id in ids && ReadForUpdate(accounts, id).Ok?
    ensures forall id | id in locked :: ReadForUpdate(accounts, id) == Ok(locked[id])
    ensures TakenInOrder(taken, locked.Keys)
  {
    hide ReadForUpdate, TakenInOrder;
  }

  class AccountRepository {
    const session: Session

    constructor (session: Session)
      ensures this.session == session
    {
      this.session := session;
    }

    method Get(id: Uuid) returns (r: Result<Account>)
      ensures r == ReadAccount(session.accounts, id)
    {
      if id !in session.accounts {
        return Err(AccountNotFound);
      }
      return session.accounts[id].AsDomain(id);
    }

    /** The row an owner already holds for a purpose and currency, if any. */
    method FindByNaturalKey(owner: Uuid, purpose: Purpose, currency: Currency) returns (r: Option<Uuid>)
      ensures r.Some? <==> NaturalKeyTaken(session.accounts, owner, purpose, currency)
      ensures r.Some? ==>
        && r.value in session.accounts && session.accounts[r.value].owner == owner
        && session.accounts[r.value].purpose == purpose && session.accounts[r.value].currency == currency
    {
      if id :| id in session.accounts && session.accounts[id].owner == owner && session.accounts[id].purpose == purpose
               && session.accounts[id].currency == currency
      {
        return Some(id);
      }
      return None;
    }

    /** Inserts a new row unless its natural key, or its id, is already there. */
    method Add(a: UserAccount) returns (r: Result<()>)
      modifies session`accounts
      ensures r.Ok? <==> a.id !in old(session.accounts)
                         && !NaturalKeyTaken(old(session.accounts), a.owner, a.purpose, a.currency)
      ensures r.Err? ==>
        r == Err(if NaturalKeyTaken(old(session.accounts), a.owner, a.purpose, a.currency) then AccountAlreadyExists
                 else RepositoryFailure)
      ensures session.accounts == if r.Ok? then old(session.accounts)[a.id := RowOf(a)] else old(session.accounts)
    {
      var taken := FindByNaturalKey(a.owner, a.purpose, a.currency);
      if taken.Some? {
        return Err(AccountAlreadyExists);
      }
      if a.id in session.accounts {
        return Err(RepositoryFailure);
      }
      session.accounts := session.accounts[a.id := RowOf(a)];
      return Ok(());
    }

    method GetForUpdate(id: Uuid) returns (r: Result<UserAccount>)
      modifies session`locks
      ensures r == ReadForUpdate(session.accounts, id)
      ensures session.locks == old(session.locks) + if r.Ok? then [id] else []
    {
      if id !in session.accounts || session.accounts[id].kind == SystemKind {
        return Err(AccountVanished);
      }
      r := session.accounts[id].AsUser(id);
      if r.Ok? {
        session.locks := session.locks + [id];
      }
    }

    /** Locks those of the named rows that exist and are customers', lowest id first, and returns them keyed by id. */
    method GetManyForUpdate(ids: set<Uuid>) returns (r: Result<map<Uuid, UserAccount>>)
      modifies session`locks
      ensures (forall id | id in ids && ReadForUpdate(session.accounts, id).Err? ::
                 ReadForUpdate(session.accounts, id).error == AccountVanished) ==> r.Ok?
      ensures r.Ok? ==> r.value.Keys == (set id | id in ids && ReadForUpdate(session.accounts, id).Ok?)
      ensures r.Ok? ==> forall id | id in r.value :: ReadForUpdate(session.accounts, id) == Ok(r.value[id])
      ensures r.Ok? ==> exists taken ::
        TakenInOrder(taken, r.value.Keys) && session.locks == old(session.locks) + taken
    {
      hide ReadForUpdate, TakenInOrder, Scanned;
      var locked: map<Uuid, UserAccount> := map[];
      var remaining := ids;
      ghost var taken: seq<Uuid> := [];
      ScanStarts(session.accounts, ids);
      while remaining != {}
        invariant remaining <= ids && session.locks == old(session.locks) + taken
        invariant Scanned(session.accounts, ids, remaining, locked, taken)
        decreases |remaining|
      {
        var next := LowestOf(remaining);
        var row := GetForUpdate(next);
        match row {
          case Ok(a) =>
            ScanGranted(session.accounts, ids, remaining, locked, taken, next, a);
            locked, taken := locked[next := a], taken + [next];
          case Err(e) =>
            if e != AccountVanished {
              return Err(e);
            }
            ScanSkipped(session.accounts, ids, remaining, locked, taken, next);
        }
        remaining := remaining - {next};
      }
      ScanEnds(session.accounts, ids, locked, taken);
      return Ok(locked);
    }

    method Update(a: UserAccount)
      modifies session`accounts
      ensures session.accounts == UpdateAccount(old(session.accounts), a)
    {
      if a.id in session.accounts {
        session.accounts := session.accounts[a.id := session.accounts[a.id].(
          balance := a.balance.amount, status := a.status, version := a.version)];
      }
    }
  }

  class TransferRepository {
    const session: Session

    constructor (session: Session)
      ensures this.session == session
    {
      this.session := session;
    }

    method Get(id: Uuid) returns (r: Option<Transfer>)
      ensures r == FindTransfer(session.transfers, id)
    {
      var i := |session.transfers|;
      assert session.transfers[..i] == session.transfers;
      while i > 0
        invariant 0 <= i <= |session.transfers|
        invariant FindTransfer(session.transfers, id) == FindTransfer(session.transfers[..i], id)
      {
        i := i - 1;
        assert session.transfers[..i + 1][..i] == session.transfers[..i];
        if session.transfers[i].id == id {
          return Some(session.transfers[i]);
        }
      }
      return None;
    }

    /** Appends the row and its entries unless another row already holds the same `reverses`. */
    method Add(t: Transfer) returns (r: Result<()>)
      modifies session`transfers
      ensures r == if SlotTaken(old(session.transfers), t.reverses) then Err(TransferAlreadyReversed) else Ok(())
      ensures session.transfers == old(session.transfers) + if r.Ok? then [Stored(t)] else []
    {
      if SlotTaken(session.transfers, t.reverses) {
        return Err(TransferAlreadyReversed);
      }
      session.transfers := session.transfers + [Stored(t)];
      return Ok(());
    }
  }

  class IdempotencyRepository {
    const session: Session

    constructor (session: Session)
      ensures this.session == session
    {
      this.session := session;
    }

    method FindByKey(key: Key) returns (r: Option<Record>)
      ensures r == if key in session.records then Some(session.records[key]) else None
    {
      return if key in session.records then Some(session.records[key]) else None;
    }

    /** The collision point: a key inserts once. */
    method Add(key: Key, record: Record) returns (r: Result<()>)
      modifies session`records
      ensures r == if key in old(session.records) then Err(IdempotencyRecordConflict) else Ok(())
      ensures session.records == if r.Ok? then old(session.records)[key := record] else old(session.records)
    {
      if key in session.records {
        return Err(IdempotencyRecordConflict);
      }
      session.records := session.records[key := record];
      return Ok(());
    }
  }

  /** One transaction: entered once, then committed or rolled back as a whole. */
  class UnitOfWork {
    const database: Database
    const session: Session
    const accounts: AccountRepository
    const transfers: TransferRepository
    const idempotency: IdempotencyRepository
    var closed: bool

    ghost predicate Valid()
      reads this
    {
      accounts.session == session && transfers.session == session && idempotency.session == session
    }

    constructor (database: Database)
      ensures Valid() && !closed && this.database == database && fresh(session)
      ensures session.View() == database.Tables()
    {
      this.database := database;
      var s := new Session(database.Tables());
      session := s;
      accounts := new AccountRepository(s);
      transfers := new TransferRepository(s);
      idempotency := new IdempotencyRepository(s);
      closed := false;
    }

    /** A clean exit publishes every write at once; a failed one publishes none. */
    method Exit(failed: bool)
      requires Valid() && !closed
      modifies this, database
      ensures Valid() && closed
      ensures database.Tables() == if failed then old(database.Tables()) else session.View()
    {
      if !failed {
        database.accounts, database.transfers, database.records :=
          session.accounts, session.transfers, session.records;
      }
      closed := true;
    }
  }
}
