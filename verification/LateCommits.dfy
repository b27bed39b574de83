/**
 * A ledger on which an ordinary withdrawal, not the reversal behind the debt, is reported as its start. Four requests
 * read the clock in the order deposit, reversal, withdrawal, deposit, and commit in another.
 */
module LateCommits {
  import opened Accounts
  import opened Chronology
  import opened DebtOrigins
  import opened Entries
  import opened Identifiers
  import opened Ledger
  import opened LedgerSteps
  import opened Money
  import opened NegativeEpisodes
  import opened Postings
  import opened Requests
  import opened Results
  import opened Runs
  import opened Sorting
  import opened Store
  import opened StoreReload
  import opened Transfers

  const FUNDING: Uuid := 1
  const SETTLEMENT: Uuid := 2
  const CUSTOMER: Uuid := 10
  const OWNER: Uuid := 5

  function Dollars(n: int): Money { Money(n, "USD") }

  function FirstDeposit(): Request { TransferRequest(FUNDING, CUSTOMER, Dollars(10), "first", OWNER) }
  function SecondDeposit(): Request { TransferRequest(FUNDING, CUSTOMER, Dollars(10), "second", OWNER) }
  function Withdrawal(): Request { TransferRequest(CUSTOMER, SETTLEMENT, Dollars(20), "third", OWNER) }
  function TakeBack(): Request { RevertRequest(101, "fourth", ADMIN_PRINCIPAL_ID) }

  function AtFirst(): Minted { Minted(101, 111, 121, Aware(1)) }
  function AtSecond(): Minted { Minted(102, 112, 122, Aware(50)) }
  function AtThird(): Minted { Minted(103, 113, 123, Aware(40)) }
  function AtFourth(): Minted { Minted(104, 114, 124, Aware(30)) }

  /** The transfer as its rows hold it. */
  function Posted(m: Minted, source: Uuid, destination: Uuid, n: int, caller: Uuid, key: string, reverses: Option<Uuid>)
    : Transfer
  {
    Transfer(m.transferId, source, destination, Dollars(n), Owner(caller), key, m.at,
             [Entry(m.debitId, m.transferId, source, Debit, Dollars(n), m.at),
              Entry(m.creditId, m.transferId, destination, Credit, Dollars(n), m.at)], reverses)
  }

  function First(): Transfer { Posted(AtFirst(), FUNDING, CUSTOMER, 10, OWNER, "first", None) }
  function Second(): Transfer { Posted(AtSecond(), FUNDING, CUSTOMER, 10, OWNER, "second", None) }
  function Third(): Transfer { Posted(AtThird(), CUSTOMER, SETTLEMENT, 20, OWNER, "third", None) }
  function Fourth(): Transfer {
    Posted(AtFourth(), CUSTOMER, FUNDING, 10, ADMIN_PRINCIPAL_ID, "fourth", Some(101))
  }

  function Rows(balance: int, version: int): map<Uuid, AccountRow> {
    map[FUNDING := AccountRow(0, SystemKind, Funding, "USD", 0, Active, 0),
        SETTLEMENT := AccountRow(0, SystemKind, Settlement, "USD", 0, Active, 0),
        CUSTOMER := AccountRow(OWNER, UserKind, Checking, "USD", balance, Active, version)]
  }

  function RecordFor(req: Request, m: Minted): Record
    requires req.MovesMoney()
  {
    Record(req.Canonical(), m.transferId, m.at)
  }

  /** The platform and one empty customer account. */
  function Start(): Db { Db(Rows(0, 0), [], map[]) }

  function AfterFirst(): Db {
    Db(Rows(10, 1), [First()], Start().records[Key(OWNER, "first") := RecordFor(FirstDeposit(), AtFirst())])
  }

  function AfterSecond(): Db {
    Db(Rows(20, 2), [First(), Second()],
       AfterFirst().records[Key(OWNER, "second") := RecordFor(SecondDeposit(), AtSecond())])
  }

  function AfterThird(): Db {
    Db(Rows(0, 3), [First(), Second(), Third()],
       AfterSecond().records[Key(OWNER, "third") := RecordFor(Withdrawal(), AtThird())])
  }

  function AfterFourth(): Db {
    Db(Rows(-10, 4), [First(), Second(), Third(), Fourth()],
       AfterThird().records[Key(ADMIN_PRINCIPAL_ID, "fourth") := RecordFor(TakeBack(), AtFourth())])
  }

  // ---- the four commits

  function Platform(id: Uuid): Account {
    System(id, 0, if id == FUNDING then Funding else Settlement, "USD")
  }

  function Customer(balance: int, version: int): UserAccount {
    User(CUSTOMER, OWNER, Checking, "USD", Dollars(balance), Active, version)
  }

  lemma RowsRead(balance: int, version: nat)
    ensures ReadAccount(Rows(balance, version), CUSTOMER) == Ok(Customer(balance, version))
    ensures forall id | id in {FUNDING, SETTLEMENT} :: ReadAccount(Rows(balance, version), id) == Ok(Platform(id))
  {
  }

  lemma RowsUpdated(balance: int, version: nat, delta: int)
    ensures UpdateAll(Rows(balance, version), [Advanced(Customer(balance, version), delta)])
         == Rows(balance + delta, version + 1)
  {
    var advanced := Advanced(Customer(balance, version), delta);
    UpdatePair(Rows(balance, version), advanced, advanced);
  }

  lemma LegsListed(t: Transfer)
    requires TwoLegs(t)
    ensures t.entries == [Entry(t.entries[0].id, t.id, t.source, Debit, t.amount, t.occurredAt),
                          Entry(t.entries[1].id, t.id, t.destination, Credit, t.amount, t.occurredAt)]
  {
  }

  /** A transfer or reversal between the customer and the platform, with the tables to itself. */
  lemma Commits(
    transfers: seq<Transfer>, records: map<Key, Record>, balance: int, version: nat, req: Request, m: Minted,
    source: Account, destination: Account, n: int)
    requires req.TransferRequest? && req.RetryKey() !in records && req.requestedBy == OWNER && m.at.Aware?
    requires req.source == source.id && req.destination == destination.id && req.amount == Dollars(n) && n > 0
    requires (source, destination) in
      {(Platform(FUNDING), Customer(balance, version)), (Customer(balance, version), Platform(SETTLEMENT))}
    requires source.User? ==> balance >= n
    ensures
      var t := Posted(m, source.id, destination.id, n, OWNER, req.key, None);
      Execute(Db(Rows(balance, version), transfers, records), req, m)
      == Executed(Db(Rows(if source.User? then balance - n else balance + n, version + 1), transfers + [t],
                     records[req.RetryKey() := RecordFor(req, m)]), Returned(t))
  {
    hide Request.Canonical, PostTransfer, UpdateAll, Rows, ReadAccount;
    RowsRead(balance, version);
    TransferPostsIff(m, source, destination, Dollars(n), Owner(OWNER), req.key);
    var p := PostTransfer(m, source, destination, Dollars(n), Owner(OWNER), req.key).value;
    LegsListed(p.transfer);
    var delta := if source.User? then -n else n;
    RowsUpdated(balance, version, delta);
    assert p.accounts == [Advanced(Customer(balance, version), delta)];
  }

  lemma CommitFirst()
    ensures Execute(Start(), FirstDeposit(), AtFirst()) == Executed(AfterFirst(), Returned(First()))
  {
    hide Request.Canonical, Execute, Rows;
    Commits([], map[], 0, 0, FirstDeposit(), AtFirst(), Platform(FUNDING), Customer(0, 0), 10);
    assert [] + [First()] == [First()];
  }

  lemma CommitSecond()
    ensures Execute(AfterFirst(), SecondDeposit(), AtSecond()) == Executed(AfterSecond(), Returned(Second()))
  {
    hide Request.Canonical, Execute, Rows;
    Commits(AfterFirst().transfers, AfterFirst().records, 10, 1, SecondDeposit(), AtSecond(), Platform(FUNDING),
            Customer(10, 1), 10);
    assert [First()] + [Second()] == [First(), Second()];
  }

  lemma CommitThird()
    ensures Execute(AfterSecond(), Withdrawal(), AtThird()) == Executed(AfterThird(), Returned(Third()))
  {
    hide Request.Canonical, Execute, Rows;
    Commits(AfterSecond().transfers, AfterSecond().records, 20, 2, Withdrawal(), AtThird(), Customer(20, 2),
            Platform(SETTLEMENT), 20);
    assert [First(), Second()] + [Third()] == [First(), Second(), Third()];
  }

  lemma FirstFound()
    ensures FindTransfer(AfterThird().transfers, 101) == Some(First())
    ensures !Reversed(AfterThird().transfers, 101)
  {
    assert [First(), Second(), Third()][..2] == [First(), Second()] && [First(), Second()][..1] == [First()];
  }

  lemma CommitFourth()
    ensures Execute(AfterThird(), TakeBack(), AtFourth())
         == Executed(AfterFourth(), Returned(Fourth().(requestedBy := Principal(ADMIN_PRINCIPAL_ID))))
  {
    hide Request.Canonical, PostReversal, UpdateAll, Rows, ReadAccount, FindTransfer, Reversed;
    FirstFound();
    RowsRead(0, 3);
    ReversalPostsIff(First(), AtFourth(), Customer(0, 3), Platform(FUNDING), Principal(ADMIN_PRINCIPAL_ID), "fourth");
    var p := PostReversal(
      First(), AtFourth(), Customer(0, 3), Platform(FUNDING), Principal(ADMIN_PRINCIPAL_ID), "fourth").value;
    LegsListed(p.transfer);
    RowsUpdated(0, 3, -10);
    assert p.accounts == [Advanced(Customer(0, 3), -10)];
    assert [First(), Second(), Third()] + [Fourth()] == [First(), Second(), Third(), Fourth()];
  }

  // ---- what the query makes of them

  function CustomersLeg(t: Transfer): Entry
    requires |t.entries| == 2
  {
    if t.entries[0].accountId == CUSTOMER then t.entries[0] else t.entries[1]
  }

  lemma {:induction false} OneMoreLeg(transfers: seq<Transfer>, t: Transfer)
    requires |t.entries| == 2 && (t.entries[0].accountId == CUSTOMER <==> t.entries[1].accountId != CUSTOMER)
    ensures OfAccount(EntriesTable(transfers + [t]), CUSTOMER)
         == OfAccount(EntriesTable(transfers), CUSTOMER) + [CustomersLeg(t)]
  {
    assert (transfers + [t])[..|transfers|] == transfers;
    OfAccountConcat(EntriesTable(transfers), t.entries, CUSTOMER);
    assert t.entries[..1] == [t.entries[0]] && t.entries[..1][..0] == [];
    assert OfAccount(t.entries[..1], CUSTOMER) == if t.entries[0].accountId == CUSTOMER then [t.entries[0]] else [];
  }

  lemma CommitOrder()
    ensures OfAccount(EntriesTable(AfterFourth().transfers), CUSTOMER)
         == [CustomersLeg(First()), CustomersLeg(Second()), CustomersLeg(Third()), CustomersLeg(Fourth())]
  {
    hide OfAccount, EntriesTable;
    OneMoreLeg([], First());
    OneMoreLeg([First()], Second());
    OneMoreLeg([First(), Second()], Third());
    OneMoreLeg([First(), Second(), Third()], Fourth());
    assert [] + [First()] == [First()] && [First()] + [Second()] == [First(), Second()];
    assert [First(), Second()] + [Third()] == [First(), Second(), Third()];
    assert [First(), Second(), Third()] + [Fourth()] == [First(), Second(), Third(), Fourth()];
    NoRows();
  }

  lemma NoRows()
    ensures OfAccount(EntriesTable([]), CUSTOMER) == []
  {
  }

  /** In time order the reversal and the withdrawal come before the deposit that was committed ahead of both. */
  lemma TimeOrder()
    ensures Window(AfterFourth().transfers, CUSTOMER)
         == [CustomersLeg(First()), CustomersLeg(Fourth()), CustomersLeg(Third()), CustomersLeg(Second())]
  {
    hide OfAccount, EntriesTable, AfterFourth;
    CommitOrder();
    var f, s, t, r := CustomersLeg(First()), CustomersLeg(Second()), CustomersLeg(Third()), CustomersLeg(Fourth());
    assert [f][..0] == [] && [f, s][..1] == [f] && [f, s, t][..2] == [f, s] && [f, s, t, r][..3] == [f, s, t];
    assert InOrder([f], Before) == [f];
    assert InOrder([f, s], Before) == [f, s];
    assert Slotted([f, s], t, Before) == [f, t, s];
    assert [f, t, s][..2] == [f, t] && [f, t][..1] == [f];
    assert Slotted([f, t], r, Before) == [f, r, t];
    assert Slotted([f, t, s], r, Before) == [f, r, t, s];
  }

  lemma Sums(w: seq<Entry>)
    requires |w| == 4
    ensures Running(w, 0) == w[0].Signed().amount
    ensures Running(w, 1) == w[0].Signed().amount + w[1].Signed().amount
    ensures Running(w, 2) == w[0].Signed().amount + w[1].Signed().amount + w[2].Signed().amount
    ensures Running(w, 3) == w[0].Signed().amount + w[1].Signed().amount + w[2].Signed().amount + w[3].Signed().amount
  {
    assert SignedSum(w[..1]) == SignedSum(w[..1][..0]) + w[0].Signed().amount && w[..1][..0] == [];
    assert w[..2][..1] == w[..1] && w[..3][..2] == w[..2] && w[..4][..3] == w[..3];
  }

  lemma ReportedStart()
    ensures NegativeSince(Window(AfterFourth().transfers, CUSTOMER)) == Some(40)
  {
    hide Running, Window, NegativeSince, AfterFourth;
    TimeOrder();
    var w := Window(AfterFourth().transfers, CUSTOMER);
    Sums(w);
    SortedIsSort(OfAccount(EntriesTable(AfterFourth().transfers), CUSTOMER));
    WindowAscends();
    LastStartIsLatest(w, 2);
  }

  lemma WindowAscends()
    ensures Ascending(Window(AfterFourth().transfers, CUSTOMER))
  {
    SortedIsSort(OfAccount(EntriesTable(AfterFourth().transfers), CUSTOMER));
  }

  /** The tables as the migrations leave them. */
  function Seeded(): Db {
    Db(Rows(0, 0) - {CUSTOMER}, [], map[])
  }

  lemma CustomerOpens()
    ensures Migrated(Seeded()) && ExecuteOpen(Seeded(), CUSTOMER, OWNER, Checking, "USD") == Start()
  {
    assert Seeded().accounts[CUSTOMER := AccountRow(OWNER, UserKind, Checking, "USD", 0, Active, 0)] == Rows(0, 0);
  }

  /**
   * The claim that a debt is reported as starting at a reversal fails here: the customer owes ten dollars that a
   * reversal of the first deposit took, and the start reported is the time of the ordinary withdrawal.
   */
  lemma WithdrawalReported()
    ensures
      var started := ExecuteOpen(Seeded(), CUSTOMER, OWNER, Checking, "USD");
      var deposited := Execute(started, FirstDeposit(), AtFirst()).db;
      var again := Execute(deposited, SecondDeposit(), AtSecond()).db;
      var withdrawn := Execute(again, Withdrawal(), AtThird()).db;
      var reverted := Execute(withdrawn, TakeBack(), AtFourth()).db;
      && Migrated(Seeded())
      && Owes(reverted, CUSTOMER) && reverted.accounts[CUSTOMER].balance == -10
      && NegativeBalances(reverted)[CUSTOMER] == Some(Third().occurredAt.micros)
      && Third() in reverted.transfers && Third().reverses.None?
      && forall t | t in reverted.transfers && t.reverses.Some? :: t.occurredAt != Third().occurredAt
  {
    hide Execute, ExecuteOpen, NegativeSince, Window;
    CustomerOpens();
    CommitFirst();
    CommitSecond();
    CommitThird();
    CommitFourth();
    ReportedStart();
  }

  /**
   * The reversal above is also one whose stored form does not reload as the value its caller was given, in whichever
   * order its rows are read.
   */
  lemma OperatorReversalReloadsDifferently(rows: seq<Entry>)
    requires QueryOrder(Fourth(), rows)
    ensures Execute(AfterThird(), TakeBack(), AtFourth()).outcome.Returned?
    ensures
      var returned := Execute(AfterThird(), TakeBack(), AtFourth()).outcome.transfer;
      && Reload(TransferToRow(returned), EntriesToRows(rows)).Ok?
      && Reload(TransferToRow(returned), EntriesToRows(rows)) != Ok(returned)
      && Reload(TransferToRow(returned), EntriesToRows(rows)).value.(entries := returned.entries) != returned
  {
    hide Execute, Reload;
    CommitFourth();
    ReturnedReloadsIff(AfterThird(), TakeBack(), AtFourth(), rows);
  }

  /** The first deposit, an ordinary transfer, reloads as what its caller was given, or not, as its rows are read. */
  lemma SwappedDepositReloadsDifferently()
    ensures Execute(Start(), FirstDeposit(), AtFirst()) == Executed(AfterFirst(), Returned(First()))
    ensures
      var (d, c) := (First().entries[0], First().entries[1]);
      && QueryOrder(First(), [d, c]) && Reload(TransferToRow(First()), EntriesToRows([d, c])) == Ok(First())
      && QueryOrder(First(), [c, d]) && Reload(TransferToRow(First()), EntriesToRows([c, d])).Ok?
      && Reload(TransferToRow(First()), EntriesToRows([c, d])) != Ok(First())
  {
    hide Execute, Reload;
    CommitFirst();
    assert First().entries == [First().entries[0], First().entries[1]];
    ReturnedReloadsIff(Start(), FirstDeposit(), AtFirst(), First().entries);
    CreditMayComeFirst(Start(), FirstDeposit(), AtFirst());
  }
}
