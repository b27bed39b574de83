/** What one atomic use case does to the tables, said without its control flow. */
module LedgerSteps {
  import opened Accounts
  import opened Entries
  import opened Identifiers
  import opened Ledger
  import opened Money
  import opened Postings
  import opened Requests
  import opened Results
  import opened Store
  import opened Transfers

  /** The signed total of the legs that name account `a`. */
  function LegSum(entries: seq<Entry>, a: Uuid): int {
    if entries == [] then 0
    else
      var last := entries[|entries| - 1];
      LegSum(entries[..|entries| - 1], a) + if last.accountId == a then last.Signed().amount else 0
  }

  /** How many legs name account `a`. */
  function LegCount(entries: seq<Entry>, a: Uuid): nat {
    if entries == [] then 0
    else
      LegCount(entries[..|entries| - 1], a) + if entries[|entries| - 1].accountId == a then 1 else 0
  }

  lemma TwoLegsSums(t: Transfer, a: Uuid)
    requires TwoLegs(t)
    ensures LegSum(t.entries, a)
         == (if a == t.destination then t.amount.amount else 0) - (if a == t.source then t.amount.amount else 0)
    ensures LegCount(t.entries, a) == if a == t.source || a == t.destination then 1 else 0
  {
    var d, c := t.entries[0], t.entries[1];
    assert t.entries == [d, c] && [d, c][..1] == [d] && [d][..0] == [];
    assert LegSum([d], a) == if a == t.source then -t.amount.amount else 0;
    assert LegCount([d], a) == if a == t.source then 1 else 0;
  }

  /** A row after the legs of `t` have moved its balance; a platform row is never written. */
  function Moved(row: AccountRow, a: Uuid, t: Transfer): AccountRow {
    if row.kind == SystemKind || LegCount(t.entries, a) == 0 then row
    else row.(balance := row.balance + LegSum(t.entries, a), version := row.version + LegCount(t.entries, a))
  }

  /** `Moved` without the sums: the source loses the amount, the destination gains it. */
  lemma MovedByLegs(row: AccountRow, a: Uuid, t: Transfer)
    requires TwoLegs(t)
    ensures Moved(row, a, t) ==
      if row.kind == SystemKind then row
      else if a == t.source then row.(balance := row.balance - t.amount.amount, version := row.version + 1)
      else if a == t.destination then row.(balance := row.balance + t.amount.amount, version := row.version + 1)
      else row
  {
    TwoLegsSums(t, a);
  }

  /** The row is one whose account may be on a leg of `t`. */
  predicate LegOk(accounts: map<Uuid, AccountRow>, t: Transfer, a: Uuid) {
    && a in accounts
    && accounts[a].AsDomain(a).Ok?
    && (accounts[a].kind == UserKind ==> accounts[a].status == Active && accounts[a].currency == t.amount.currency)
  }

  /** Posting `t` appends it and moves exactly the USER rows its legs name. */
  ghost predicate Posts(db: Db, t: Transfer, db': Db) {
    && TwoLegs(t)
    && db'.transfers == db.transfers + [t]
    && LegOk(db.accounts, t, t.source)
    && LegOk(db.accounts, t, t.destination)
    && db'.accounts.Keys == db.accounts.Keys
    && forall a | a in db.accounts :: db'.accounts[a] == Moved(db.accounts[a], a, t)
  }

  /** The new record carries the transfer's own id, caller and key; the row forgets the caller's class. */
  ghost predicate Records(db: Db, t: Transfer, db': Db) {
    var key := Key(t.requestedBy.value, t.key);
    && t.requestedBy.Owner?
    && key !in db.records && key in db'.records
    && db'.records == db.records[key := Record(db'.records[key].hash, t.id, t.occurredAt)]
  }

  /** An ordinary transfer: one currency throughout, never into debt, at least one customer leg. */
  ghost predicate Ordinary(db: Db, t: Transfer) {
    && t.reverses.None?
    && LegOk(db.accounts, t, t.source) && LegOk(db.accounts, t, t.destination)
    && db.accounts[t.source].currency == t.amount.currency == db.accounts[t.destination].currency
    && (db.accounts[t.source].kind == UserKind || db.accounts[t.destination].kind == UserKind)
    && (db.accounts[t.source].kind == UserKind ==> db.accounts[t.source].balance >= t.amount.amount)
  }

  /** `t` takes back exactly what `original` moved. */
  predicate Mirrors(t: Transfer, original: Transfer) {
    && t.reverses == Some(original.id)
    && t.source == original.destination
    && t.destination == original.source
    && t.amount == original.amount
  }

  ghost predicate Reversal(db: Db, t: Transfer) {
    && t.reverses.Some?
    && FindTransfer(db.transfers, t.reverses.value).Some?
    && Mirrors(t, FindTransfer(db.transfers, t.reverses.value).value)
    && !Reversed(db.transfers, t.reverses.value)
  }

  /** Closing writes one ACTIVE, empty row. */
  ghost predicate Closes(db: Db, a: Uuid, db': Db) {
    && a in db.accounts
    && var row := db.accounts[a];
    && row.AsDomain(a).Ok? && row.kind == UserKind && row.status == Active && row.balance == 0
    && db' == db.(accounts := db.accounts[a := row.(status := Closed, version := row.version + 1)])
  }

  /** Opening inserts one empty customer row under a free natural key. */
  ghost predicate Opens(db: Db, id: Uuid, db': Db) {
    && id !in db.accounts
    && id in db'.accounts
    && var row := db'.accounts[id];
    && row.kind == UserKind && row.purpose.Kind() == UserKind
    && row.balance == 0 && row.status == Active && row.version == 0
    && !NaturalKeyTaken(db.accounts, row.owner, row.purpose, row.currency)
    && db' == db.(accounts := db.accounts[id := row])
  }

  // ---- the use cases do just that

  /** A posting computed from the two legs as the tables now hold them. */
  predicate Backed(db: Db, p: Posting, source: Account, destination: Account) {
    && ReadAccount(db.accounts, p.transfer.source) == Ok(source)
    && ReadAccount(db.accounts, p.transfer.destination) == Ok(destination)
    && source.id == p.transfer.source && destination.id == p.transfer.destination
    && source.Valid() && destination.Valid()
    && TwoLegs(p.transfer)
    && Operable(source) && Operable(destination)
    && (source.User? ==> source.currency == p.transfer.amount.currency)
    && (destination.User? ==> destination.currency == p.transfer.amount.currency)
    && p.accounts == Successors(source, destination, p.transfer.amount.amount)
  }

  /** The posting carries what this attempt was asked and what it minted. */
  predicate Attributed(req: Request, m: Minted, t: Transfer)
    requires req.MovesMoney()
  {
    && t.id == m.transferId && t.occurredAt == m.at
    && |t.entries| == 2 && t.entries[0].id == m.debitId && t.entries[1].id == m.creditId
    && t.key == req.key
    && t.requestedBy == if req.TransferRequest? then Owner(req.requestedBy) else Principal(req.executedBy)
  }

  /** The accounts a prepared posting was computed from, and what that says of the posting. */
  lemma PreparedLegs(db: Db, req: Request, m: Minted, p: Posting)
    returns (original: Option<Transfer>, source: Account, destination: Account)
    requires req.MovesMoney() && Prepare(db, req, m) == Ok(p)
    ensures LoadOriginal(db.transfers, req) == Ok(original)
    ensures req.RevertRequest? == original.Some?
    ensures p.transfer.source == SourceId(req, original) && p.transfer.destination == DestinationId(req, original)
    ensures Backed(db, p, source, destination)
    ensures Attributed(req, m, p.transfer)
    ensures req.TransferRequest? ==>
      && p.transfer.reverses.None?
      && p.transfer.amount == req.amount
      && source.currency == destination.currency == req.amount.currency
      && (source.User? || destination.User?)
      && (source.User? ==> source.balance.amount >= p.transfer.amount.amount)
    ensures req.RevertRequest? ==> Mirrors(p.transfer, original.value)
  {
    original := LoadOriginal(db.transfers, req).value;
    source := ReadAccount(db.accounts, SourceId(req, original)).value;
    destination := ReadAccount(db.accounts, DestinationId(req, original)).value;
    match req
    case TransferRequest(_, _, amount, key, requestedBy) =>
      TransferPostsIff(m, source, destination, amount, Owner(requestedBy), key);
    case RevertRequest(_, key, executedBy) =>
      FoundIsThere(db.transfers, req.transferId);
      ReversalPostsIff(original.value, m, source, destination, Principal(executedBy), key);
  }

  lemma UpdatePair(accounts: map<Uuid, AccountRow>, x: UserAccount, y: UserAccount)
    ensures UpdateAll(accounts, [x]) == UpdateAccount(accounts, x)
    ensures UpdateAll(accounts, [x, y]) == UpdateAccount(UpdateAccount(accounts, x), y)
  {
    assert [x, y][..1] == [x] && [x][..0] == [];
    assert UpdateAll(accounts, []) == accounts;
  }

  /** The legs' rows moved by the amount, every other row as it was. */
  predicate Settled(
    accounts: map<Uuid, AccountRow>, source: Uuid, destination: Uuid, amount: int, updated: map<Uuid, AccountRow>)
  {
    && updated.Keys == accounts.Keys
    && forall a | a in accounts ::
         updated[a] ==
           var row := accounts[a];
           if row.kind == SystemKind then row
           else if a == source then row.(balance := row.balance - amount, version := row.version + 1)
           else if a == destination then row.(balance := row.balance + amount, version := row.version + 1)
           else row
  }

  lemma UpdatedRows(accounts: map<Uuid, AccountRow>, a: UserAccount, delta: int)
    requires ReadAccount(accounts, a.id) == Ok(a)
    ensures
      var row := accounts[a.id];
      UpdateAccount(accounts, Advanced(a, delta))
      == accounts[a.id := row.(balance := row.balance + delta, version := row.version + 1)]
  {
  }

  lemma ReadTells(accounts: map<Uuid, AccountRow>, a: Account)
    requires ReadAccount(accounts, a.id) == Ok(a)
    ensures a.id in accounts && (a.User? <==> accounts[a.id].kind == UserKind)
  {
  }

  lemma ReadsOwnRow(accounts: map<Uuid, AccountRow>, other: Uuid, row: AccountRow, a: Account)
    requires ReadAccount(accounts, a.id) == Ok(a) && other != a.id
    ensures ReadAccount(accounts[other := row], a.id) == Ok(a)
  {
  }

  lemma UpdateSuccessors(accounts: map<Uuid, AccountRow>, source: Account, destination: Account, amount: int)
    requires source.id != destination.id
    requires ReadAccount(accounts, source.id) == Ok(source) && ReadAccount(accounts, destination.id) == Ok(destination)
    ensures Settled(accounts, source.id, destination.id, amount,
                    UpdateAll(accounts, Successors(source, destination, amount)))
  {
    hide UpdateAccount, Advanced, ReadAccount;
    ReadTells(accounts, source);
    ReadTells(accounts, destination);
    if source.User? {
      UpdatedRows(accounts, source, -amount);
      var debited := UpdateAccount(accounts, Advanced(source, -amount));
      if destination.User? {
        ReadsOwnRow(accounts, source.id, debited[source.id], destination);
        UpdatePair(accounts, Advanced(source, -amount), Advanced(destination, amount));
        UpdatedRows(debited, destination, amount);
      } else {
        UpdatePair(accounts, Advanced(source, -amount), Advanced(source, -amount));
      }
    } else if destination.User? {
      UpdatedRows(accounts, destination, amount);
      UpdatePair(accounts, Advanced(destination, amount), Advanced(destination, amount));
    }
  }

  lemma AccountMayBeLeg(accounts: map<Uuid, AccountRow>, t: Transfer, a: Account)
    requires ReadAccount(accounts, a.id) == Ok(a) && Operable(a)
    requires a.User? ==> a.currency == t.amount.currency
    ensures LegOk(accounts, t, a.id)
  {
  }

  lemma SettledPosts(db: Db, t: Transfer, db': Db)
    requires TwoLegs(t) && LegOk(db.accounts, t, t.source) && LegOk(db.accounts, t, t.destination)
    requires Settled(db.accounts, t.source, t.destination, t.amount.amount, db'.accounts)
    requires db'.transfers == db.transfers + [t]
    ensures Posts(db, t, db')
  {
    forall a | a in db.accounts ensures db'.accounts[a] == Moved(db.accounts[a], a, t) {
      MovedByLegs(db.accounts[a], a, t);
    }
  }

  lemma BackedPosts(db: Db, p: Posting, source: Account, destination: Account, db': Db)
    requires Backed(db, p, source, destination)
    requires db'.transfers == db.transfers + [Stored(p.transfer)]
    requires db'.accounts == UpdateAll(db.accounts, p.accounts)
    ensures Posts(db, Stored(p.transfer), db')
  {
    var t := Stored(p.transfer);
    AccountMayBeLeg(db.accounts, t, source);
    AccountMayBeLeg(db.accounts, t, destination);
    UpdateSuccessors(db.accounts, source, destination, t.amount.amount);
    SettledPosts(db, t, db');
  }

  /** A published posting is `Posts`, recorded under its own key. */
  lemma PublishPosts(db: Db, req: Request, m: Minted, p: Posting)
    requires req.MovesMoney() && Prepare(db, req, m) == Ok(p) && req.RetryKey() !in db.records
    ensures Posts(db, Stored(p.transfer), Publish(db, req, m, p))
    ensures Records(db, Stored(p.transfer), Publish(db, req, m, p))
  {
    hide Prepare, Successors, UpdateAll;
    var _, source, destination := PreparedLegs(db, req, m, p);
    BackedPosts(db, p, source, destination, Publish(db, req, m, p));
  }

  /** A published posting is either an ordinary transfer or takes back an un-reversed one. */
  lemma PreparedKind(db: Db, req: Request, m: Minted, p: Posting)
    requires req.MovesMoney() && Prepare(db, req, m) == Ok(p) && !SlotTaken(db.transfers, p.transfer.reverses)
    ensures Ordinary(db, Stored(p.transfer)) || Reversal(db, Stored(p.transfer))
  {
    var original, source, destination := PreparedLegs(db, req, m, p);
    if req.RevertRequest? {
      FoundIsThere(db.transfers, req.transferId);
    }
  }

  /** How a request changed the tables, if it did. */
  datatype Change =
    | Nothing
    | Posted(transfer: Transfer)
    | ClosedRow(account: Uuid)
    | OpenedRow(account: Uuid)

  ghost predicate Changes(db: Db, change: Change, db': Db) {
    match change
    case Nothing => db' == db
    case Posted(t) =>
      && Posts(db, t, db')
      && Records(db, t, db')
      && (Ordinary(db, t) || Reversal(db, t))
    case ClosedRow(a) => Closes(db, a, db')
    case OpenedRow(a) => Opens(db, a, db')
  }

  /** Every atomic run is one of the four changes, and a new transfer carries the minted id. */
  lemma ExecuteChanges(db: Db, req: Request, m: Minted) returns (change: Change)
    ensures Changes(db, change, Execute(db, req, m).db)
    ensures !change.OpenedRow?
    ensures change.Posted? ==> req.MovesMoney() && change.transfer.id == m.transferId
                               && |change.transfer.entries| == 2 && change.transfer.entries[0].id == m.debitId
                               && change.transfer.entries[1].id == m.creditId
    ensures change.Posted? ==>
      Execute(db, req, m).outcome.Returned? && change.transfer == Stored(Execute(db, req, m).outcome.transfer)
  {
    var done := Execute(db, req, m);
    if done.db == db {
      return Nothing;
    }
    if req.CloseRequest? {
      return ClosedRow(req.accountId);
    }
    var p := Prepare(db, req, m).value;
    PublishPosts(db, req, m, p);
    PreparedKind(db, req, m, p);
    var _, _, _ := PreparedLegs(db, req, m, p);
    change := Posted(Stored(p.transfer));
  }

  /** Opening inserts the row asked for exactly when its natural key is free and a customer's; else nothing changes. */
  lemma OpenChanges(db: Db, id: Uuid, owner: Uuid, purpose: Purpose, currency: Currency) returns (change: Change)
    ensures Changes(db, change, ExecuteOpen(db, id, owner, purpose, currency))
    ensures change == if id !in db.accounts && !NaturalKeyTaken(db.accounts, owner, purpose, currency)
                         && (purpose == Checking || purpose == Savings) then OpenedRow(id) else Nothing
    ensures change.OpenedRow? ==>
      var row := ExecuteOpen(db, id, owner, purpose, currency).accounts[id];
      row.owner == owner && row.purpose == purpose && row.currency == currency
  {
    var db' := ExecuteOpen(db, id, owner, purpose, currency);
    if db' == db {
      return Nothing;
    }
    var row := RowOf(OpenUser(id, owner, purpose, currency).value);
    assert db' == db.(accounts := db.accounts[id := row]);
    change := OpenedRow(id);
  }
}
