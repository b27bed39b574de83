/** The durable tables and the statements the repositories run against them. */
module Store {
  import opened Accounts
  import opened Identifiers
  import opened Money
  import opened Results
  import opened Transfers

  /** One row of `accounts`. */
  datatype AccountRow = AccountRow(
    owner: Uuid, kind: Kind, purpose: Purpose, currency: Currency, balance: int, status: Status, version: int)
  {
    function AsUser(id: Uuid): Result<UserAccount> {
      MakeUser(id, owner, purpose, currency, Money(balance, currency), status, version)
    }

    /** A SYSTEM row's balance, status and version are not read at all. */
    function AsDomain(id: Uuid): Result<Account> {
      if kind == SystemKind then MakeSystem(id, owner, purpose, currency) else AsUser(id)
    }
  }

  /** One row of `idempotency_records`. */
  datatype Record = Record(hash: string, transferId: Uuid, createdAt: Timestamp)

  /** The committed tables. Transfers own their entries; both are append-only, kept in commit order. */
  datatype Db = Db(accounts: map<Uuid, AccountRow>, transfers: seq<Transfer>, records: map<Key, Record>)

  /** What a transfer reads back as: the columns keep the requester's UUID but not which class it was. */
  function Stored(t: Transfer): Transfer {
    t.(requestedBy := Owner(t.requestedBy.value))
  }

  function RowOf(a: UserAccount): AccountRow {
    AccountRow(a.owner, UserKind, a.purpose, a.currency, a.balance.amount, a.status, a.version)
  }

  /** Find-or-fail by primary key. */
  function ReadAccount(accounts: map<Uuid, AccountRow>, id: Uuid): Result<Account> {
    if id !in accounts then Err(AccountNotFound) else accounts[id].AsDomain(id)
  }

  /** The row a granted `FOR UPDATE` returns; SYSTEM rows are excluded by the query. */
  function ReadForUpdate(accounts: map<Uuid, AccountRow>, id: Uuid): Result<UserAccount> {
    if id !in accounts || accounts[id].kind == SystemKind then Err(AccountVanished) else accounts[id].AsUser(id)
  }

  /** The UPDATE writes three columns of the named row, and nothing when there is no such row. */
  function UpdateAccount(accounts: map<Uuid, AccountRow>, a: UserAccount): map<Uuid, AccountRow> {
    if a.id !in accounts then accounts
    else accounts[a.id := accounts[a.id].(balance := a.balance.amount, status := a.status, version := a.version)]
  }

  function UpdateAll(accounts: map<Uuid, AccountRow>, updated: seq<UserAccount>): map<Uuid, AccountRow> {
    if updated == [] then accounts
    else UpdateAccount(UpdateAll(accounts, updated[..|updated| - 1]), updated[|updated| - 1])
  }

  /** Lookup by primary key. */
  function FindTransfer(transfers: seq<Transfer>, id: Uuid): Option<Transfer> {
    if transfers == [] then None
    else if transfers[|transfers| - 1].id == id then Some(transfers[|transfers| - 1])
    else FindTransfer(transfers[..|transfers| - 1], id)
  }

  /** Some row holds the `reverses` slot of `id`. */
  predicate Reversed(transfers: seq<Transfer>, id: Uuid) {
    exists t :: t in transfers && t.reverses == Some(id)
  }

  /** The partial unique index refuses a second row with this `reverses` value. */
  predicate SlotTaken(transfers: seq<Transfer>, reverses: Option<Uuid>) {
    reverses.Some? && Reversed(transfers, reverses.value)
  }

  lemma {:induction false} FoundIsThere(transfers: seq<Transfer>, id: Uuid)
    ensures FindTransfer(transfers, id).Some? ==>
      FindTransfer(transfers, id).value in transfers && FindTransfer(transfers, id).value.id == id
    ensures FindTransfer(transfers, id).None? ==> forall t | t in transfers :: t.id != id
  {
    if transfers != [] {
      FoundIsThere(transfers[..|transfers| - 1], id);
      assert transfers == transfers[..|transfers| - 1] + [transfers[|transfers| - 1]];
    }
  }

  /** The primary key of `transfers`. */
  ghost predicate UniqueIds(transfers: seq<Transfer>) {
    forall i, j | 0 <= i < j < |transfers| :: transfers[i].id != transfers[j].id
  }

  lemma UniqueFind(transfers: seq<Transfer>, t: Transfer)
    requires UniqueIds(transfers) && t in transfers
    ensures FindTransfer(transfers, t.id) == Some(t)
  {
    FoundIsThere(transfers, t.id);
  }
}
