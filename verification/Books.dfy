/**
 * What is true of the tables after any sequence of atomic use cases: balances are explained by entries, nothing is
 * created or lost, debts come only from reversals, records and transfers answer to each other, closed is empty.
 */
module Books {
  import opened Accounts
  import opened Entries
  import opened Identifiers
  import opened LedgerSteps
  import opened Money
  import opened Postings
  import opened Store
  import opened Sums
  import opened Transfers

  // ---- what the entries add up to

  /** The signed total of every entry ever written for account `a`. */
  function EntrySum(transfers: seq<Transfer>, a: Uuid): int {
    if transfers == [] then 0
    else EntrySum(transfers[..|transfers| - 1], a) + LegSum(transfers[|transfers| - 1].entries, a)
  }

  function EntryCount(transfers: seq<Transfer>, a: Uuid): nat {
    if transfers == [] then 0
    else EntryCount(transfers[..|transfers| - 1], a) + LegCount(transfers[|transfers| - 1].entries, a)
  }

  /** Everything reversals ever debited from account `a`. */
  function ReversalDebits(transfers: seq<Transfer>, a: Uuid): int {
    if transfers == [] then 0
    else
      var last := transfers[|transfers| - 1];
      ReversalDebits(transfers[..|transfers| - 1], a)
      + if last.reverses.Some? && last.source == a then last.amount.amount else 0
  }

  /** The signed total of one currency over the whole ledger. */
  function LedgerSum(transfers: seq<Transfer>, c: Currency): int {
    if transfers == [] then 0
    else LedgerSum(transfers[..|transfers| - 1], c) + CurrencySum(transfers[|transfers| - 1].entries, c)
  }

  /** The signed total of the legs on platform accounts, in one currency. */
  function PlatformLegs(entries: seq<Entry>, platform: set<Uuid>, c: Currency): int {
    if entries == [] then 0
    else
      var last := entries[|entries| - 1];
      PlatformLegs(entries[..|entries| - 1], platform, c)
      + if last.accountId in platform && last.amount.currency == c then last.Signed().amount else 0
  }

  function PlatformSum(transfers: seq<Transfer>, platform: set<Uuid>, c: Currency): int {
    if transfers == [] then 0
    else
      PlatformSum(transfers[..|transfers| - 1], platform, c)
      + PlatformLegs(transfers[|transfers| - 1].entries, platform, c)
  }

  function Platform(accounts: map<Uuid, AccountRow>): set<Uuid> {
    set a | a in accounts && accounts[a].kind == SystemKind
  }

  function CustomerBalances(accounts: map<Uuid, AccountRow>, c: Currency): map<Uuid, int> {
    map a | a in accounts && accounts[a].kind == UserKind && accounts[a].currency == c :: accounts[a].balance
  }

  // ---- the books

  /** Rows decode; platform rows are inert at zero. */
  ghost predicate RowsOk(db: Db) {
    forall a | a in db.accounts ::
      && db.accounts[a].AsDomain(a).Ok?
      && (db.accounts[a].kind == SystemKind ==>
            db.accounts[a].balance == 0 && db.accounts[a].status == Active && db.accounts[a].version == 0)
  }

  /** Both legs of every transfer exist, in its currency, and at least one is a customer's. */
  predicate Grounded(accounts: map<Uuid, AccountRow>, t: Transfer) {
    && TwoLegs(t)
    && t.source in accounts && t.destination in accounts
    && accounts[t.source].currency == t.amount.currency == accounts[t.destination].currency
    && (accounts[t.source].kind == UserKind || accounts[t.destination].kind == UserKind)
  }

  ghost predicate TransfersOk(db: Db) {
    forall t | t in db.transfers :: Grounded(db.accounts, t)
  }

  /** A customer's balance is the sum of its entries; its version counts them, and its closing. */
  ghost predicate Reconciled(db: Db) {
    forall a | a in db.accounts && db.accounts[a].kind == UserKind ::
      && db.accounts[a].balance == EntrySum(db.transfers, a)
      && db.accounts[a].version == EntryCount(db.transfers, a) + if db.accounts[a].status == Closed then 1 else 0
  }

  ghost predicate ClosedIsEmpty(db: Db) {
    forall a | a in db.accounts && db.accounts[a].status == Closed :: db.accounts[a].balance == 0
  }

  /** A customer owes at most what reversals took. */
  ghost predicate DebtBounded(db: Db) {
    forall a | a in db.accounts && db.accounts[a].kind == UserKind ::
      db.accounts[a].balance >= -ReversalDebits(db.transfers, a)
  }

  /** In commit order, entry `i` is what took the account from zero or more to below zero. */
  predicate CrossesAt(transfers: seq<Transfer>, a: Uuid, i: nat)
    requires i < |transfers|
  {
    EntrySum(transfers[..i], a) >= 0 && EntrySum(transfers[..i + 1], a) < 0
  }

  /** Only a reversal's debit takes a customer below zero. */
  ghost predicate DebtsStartAtReversals(db: Db) {
    forall a, i | a in db.accounts && db.accounts[a].kind == UserKind && 0 <= i < |db.transfers|
                  && CrossesAt(db.transfers, a, i) ::
      db.transfers[i].reverses.Some? && db.transfers[i].source == a
  }

  /** What a customer pays by an ordinary transfer had been committed to the account, in full, before it. */
  ghost predicate DebitsCovered(db: Db) {
    forall i | 0 <= i < |db.transfers| && db.transfers[i].reverses.None? ::
      var t := db.transfers[i];
      t.source in db.accounts && db.accounts[t.source].kind == UserKind ==>
        EntrySum(db.transfers[..i], t.source) >= t.amount.amount
  }

  function KeyOf(t: Transfer): Key {
    Key(t.requestedBy.value, t.key)
  }

  /** Records and transfers name each other, one to one. */
  ghost predicate Recorded(db: Db) {
    && (forall t | t in db.transfers ::
          t.requestedBy.Owner? && KeyOf(t) in db.records && db.records[KeyOf(t)].transferId == t.id
          && db.records[KeyOf(t)].createdAt == t.occurredAt)
    && (forall k | k in db.records ::
          exists t :: t in db.transfers && t.id == db.records[k].transferId && KeyOf(t) == k)
  }

  /** A reversal mirrors an earlier transfer, and no transfer is reversed twice. */
  ghost predicate ReversalsOk(transfers: seq<Transfer>) {
    && (forall i | 0 <= i < |transfers| && transfers[i].reverses.Some? ::
          exists j :: 0 <= j < i && Mirrors(transfers[i], transfers[j]))
    && (forall i, j | 0 <= i < j < |transfers| && transfers[i].reverses.Some? ::
          transfers[i].reverses != transfers[j].reverses)
  }

  ghost predicate NaturalKeysUnique(accounts: map<Uuid, AccountRow>) {
    forall a, b | a in accounts && b in accounts && a != b ::
      !(&& accounts[a].owner == accounts[b].owner && accounts[a].purpose == accounts[b].purpose
        && accounts[a].currency == accounts[b].currency)
  }

  /** Customers together hold exactly what the platform paid out. */
  ghost predicate Conserved(db: Db) {
    forall c: Currency ::
      Total(CustomerBalances(db.accounts, c)) == -PlatformSum(db.transfers, Platform(db.accounts), c)
  }

  ghost predicate Sound(db: Db) {
    && RowsOk(db) && TransfersOk(db) && UniqueIds(db.transfers) && Reconciled(db) && ClosedIsEmpty(db)
    && DebtBounded(db) && DebitsCovered(db) && DebtsStartAtReversals(db) && Recorded(db) && ReversalsOk(db.transfers)
    && NaturalKeysUnique(db.accounts) && Conserved(db)
  }

  // ---- sums over one more transfer

  lemma SumsAppended(transfers: seq<Transfer>, t: Transfer, a: Uuid)
    ensures EntrySum(transfers + [t], a) == EntrySum(transfers, a) + LegSum(t.entries, a)
    ensures EntryCount(transfers + [t], a) == EntryCount(transfers, a) + LegCount(t.entries, a)
    ensures ReversalDebits(transfers + [t], a)
         == ReversalDebits(transfers, a) + if t.reverses.Some? && t.source == a then t.amount.amount else 0
  {
    assert (transfers + [t])[..|transfers|] == transfers;
  }

  lemma {:induction false} NoLegsNoSum(transfers: seq<Transfer>, a: Uuid)
    requires forall t | t in transfers :: TwoLegs(t) && t.source != a && t.destination != a
    ensures EntrySum(transfers, a) == 0 && EntryCount(transfers, a) == 0
  {
    if transfers != [] {
      NoLegsNoSum(transfers[..|transfers| - 1], a);
      TwoLegsSums(transfers[|transfers| - 1], a);
    }
  }

  lemma {:induction false} DebitsNonNegative(transfers: seq<Transfer>, a: Uuid)
    requires forall t | t in transfers :: t.amount.amount >= 0
    ensures ReversalDebits(transfers, a) >= 0
  {
    if transfers != [] {
      DebitsNonNegative(transfers[..|transfers| - 1], a);
    }
  }

  // ---- a posting keeps each book

  lemma PostingIsGrounded(db: Db, t: Transfer, db': Db)
    requires TransfersOk(db) && Posts(db, t, db') && (Ordinary(db, t) || Reversal(db, t))
    ensures Grounded(db.accounts, t)
  {
    if Reversal(db, t) {
      FoundIsThere(db.transfers, t.reverses.value);
      assert Grounded(db.accounts, FindTransfer(db.transfers, t.reverses.value).value);
    }
  }

  /** Nothing but balance and version of a row ever moves. */
  lemma MovedKeepsColumns(row: AccountRow, a: Uuid, t: Transfer)
    requires TwoLegs(t)
    ensures Moved(row, a, t) == row.(balance := Moved(row, a, t).balance, version := Moved(row, a, t).version)
    ensures row.AsDomain(a).Ok? ==> Moved(row, a, t).AsDomain(a).Ok?
    ensures row.kind == SystemKind ==> Moved(row, a, t) == row
  {
    MovedByLegs(row, a, t);
  }

  lemma PostKeepsRows(db: Db, t: Transfer, db': Db)
    requires RowsOk(db) && Posts(db, t, db')
    ensures RowsOk(db')
  {
    forall a | a in db.accounts
      ensures db'.accounts[a].AsDomain(a).Ok?
      ensures db.accounts[a].kind == SystemKind ==> db'.accounts[a] == db.accounts[a]
      ensures db'.accounts[a].kind == db.accounts[a].kind
    {
      MovedKeepsColumns(db.accounts[a], a, t);
    }
  }

  lemma GroundedStays(accounts: map<Uuid, AccountRow>, accounts': map<Uuid, AccountRow>, t: Transfer)
    requires Grounded(accounts, t)
    requires forall a | a in accounts ::
      a in accounts' && accounts'[a].kind == accounts[a].kind && accounts'[a].currency == accounts[a].currency
    ensures Grounded(accounts', t)
  {
  }

  lemma PostKeepsTransfers(db: Db, t: Transfer, db': Db)
    requires TransfersOk(db) && Posts(db, t, db') && Grounded(db.accounts, t)
    ensures TransfersOk(db')
  {
    forall a | a in db.accounts
      ensures db'.accounts[a].kind == db.accounts[a].kind && db'.accounts[a].currency == db.accounts[a].currency
    {
      MovedKeepsColumns(db.accounts[a], a, t);
    }
    forall other | other in db'.transfers ensures Grounded(db'.accounts, other) {
      GroundedStays(db.accounts, db'.accounts, other);
    }
  }

  lemma PostKeepsUniqueIds(transfers: seq<Transfer>, t: Transfer)
    requires UniqueIds(transfers) && forall other | other in transfers :: other.id != t.id
    ensures UniqueIds(transfers + [t])
  {
  }

  lemma MovedSums(row: AccountRow, a: Uuid, t: Transfer)
    requires TwoLegs(t) && row.kind == UserKind
    ensures Moved(row, a, t).balance == row.balance + LegSum(t.entries, a)
    ensures Moved(row, a, t).version == row.version + LegCount(t.entries, a)
    ensures Moved(row, a, t).status == row.status
  {
    TwoLegsSums(t, a);
  }

  lemma PostKeepsReconciled(db: Db, t: Transfer, db': Db)
    requires Reconciled(db) && Posts(db, t, db')
    ensures Reconciled(db')
  {
    forall a | a in db'.accounts && db'.accounts[a].kind == UserKind
      ensures db'.accounts[a].balance == EntrySum(db'.transfers, a)
      ensures db'.accounts[a].version
           == EntryCount(db'.transfers, a) + if db'.accounts[a].status == Closed then 1 else 0
    {
      MovedKeepsColumns(db.accounts[a], a, t);
      MovedSums(db.accounts[a], a, t);
      SumsAppended(db.transfers, t, a);
    }
  }

  lemma PostKeepsClosedEmpty(db: Db, t: Transfer, db': Db)
    requires ClosedIsEmpty(db) && Posts(db, t, db')
    ensures ClosedIsEmpty(db')
  {
    forall a | a in db'.accounts && db'.accounts[a].status == Closed ensures db'.accounts[a].balance == 0 {
      MovedByLegs(db.accounts[a], a, t);
    }
  }

  lemma PostKeepsDebtBounded(db: Db, t: Transfer, db': Db)
    requires DebtBounded(db) && TransfersOk(db) && Posts(db, t, db') && (Ordinary(db, t) || t.reverses.Some?)
    ensures DebtBounded(db')
  {
    forall a | a in db'.accounts && db'.accounts[a].kind == UserKind
      ensures db'.accounts[a].balance >= -ReversalDebits(db'.transfers, a)
    {
      MovedByLegs(db.accounts[a], a, t);
      SumsAppended(db.transfers, t, a);
      DebitsNonNegative(db.transfers, a);
    }
  }

  lemma PostKeepsCovered(db: Db, t: Transfer, db': Db)
    requires DebitsCovered(db) && Reconciled(db) && Posts(db, t, db') && (Ordinary(db, t) || t.reverses.Some?)
    ensures DebitsCovered(db')
  {
    var n := |db.transfers|;
    forall i | 0 <= i < n + 1 && db'.transfers[i].reverses.None?
      ensures
        var d := db'.transfers[i];
        d.source in db'.accounts && db'.accounts[d.source].kind == UserKind ==>
          EntrySum(db'.transfers[..i], d.source) >= d.amount.amount
    {
      var d := db'.transfers[i];
      if d.source in db.accounts {
        MovedKeepsColumns(db.accounts[d.source], d.source, t);
      }
      if i < n {
        assert db'.transfers[..i] == db.transfers[..i] && db.transfers[i] == d;
      } else {
        assert db'.transfers[..i] == db.transfers;
      }
    }
  }

  /** So the entry that takes a customer below zero, in commit order, cannot be an ordinary one. */
  lemma CoveredCrossings(db: Db)
    requires DebitsCovered(db) && TransfersOk(db)
    ensures DebtsStartAtReversals(db)
  {
    forall a, i | a in db.accounts && db.accounts[a].kind == UserKind && 0 <= i < |db.transfers|
                  && CrossesAt(db.transfers, a, i)
      ensures db.transfers[i].reverses.Some? && db.transfers[i].source == a
    {
      assert Grounded(db.accounts, db.transfers[i]);
      assert db.transfers[..i + 1] == db.transfers[..i] + [db.transfers[i]];
      SumsAppended(db.transfers[..i], db.transfers[i], a);
      TwoLegsSums(db.transfers[i], a);
    }
  }

  lemma PostKeepsRecorded(db: Db, t: Transfer, db': Db)
    requires Recorded(db) && Records(db, t, db') && db'.transfers == db.transfers + [t]
    ensures Recorded(db')
  {
    assert t in db'.transfers;
    forall k | k in db'.records
      ensures exists s :: s in db'.transfers && s.id == db'.records[k].transferId && KeyOf(s) == k
    {
      if k in db.records {
        var s :| s in db.transfers && s.id == db.records[k].transferId && KeyOf(s) == k;
        assert s in db'.transfers;
      }
    }
  }

  lemma PostKeepsReversals(transfers: seq<Transfer>, t: Transfer, db: Db)
    requires ReversalsOk(transfers) && transfers == db.transfers && (t.reverses.None? || Reversal(db, t))
    ensures ReversalsOk(transfers + [t])
  {
    var longer, n := transfers + [t], |transfers|;
    if Reversal(db, t) {
      FoundIsThere(transfers, t.reverses.value);
      var j :| 0 <= j < n && transfers[j] == FindTransfer(transfers, t.reverses.value).value;
      assert Mirrors(longer[n], longer[j]);
    }
    forall i | 0 <= i < n && longer[i].reverses.Some?
      ensures exists j :: 0 <= j < i && Mirrors(longer[i], longer[j])
      ensures longer[i].reverses != t.reverses
    {
      var j :| 0 <= j < i && Mirrors(transfers[i], transfers[j]);
      assert Mirrors(longer[i], longer[j]);
      assert transfers[i] in transfers;
    }
  }

  lemma PostKeepsNaturalKeys(db: Db, t: Transfer, db': Db)
    requires NaturalKeysUnique(db.accounts) && Posts(db, t, db')
    ensures NaturalKeysUnique(db'.accounts)
  {
    forall a | a in db.accounts
      ensures db'.accounts[a].owner == db.accounts[a].owner && db'.accounts[a].purpose == db.accounts[a].purpose
           && db'.accounts[a].currency == db.accounts[a].currency
    {
      MovedKeepsColumns(db.accounts[a], a, t);
    }
  }

  // ---- conservation

  lemma PlatformLegsOf(t: Transfer, platform: set<Uuid>, c: Currency)
    requires TwoLegs(t)
    ensures PlatformLegs(t.entries, platform, c) ==
      (if t.amount.currency == c && t.destination in platform then t.amount.amount else 0)
      - (if t.amount.currency == c && t.source in platform then t.amount.amount else 0)
  {
    var d, e := t.entries[0], t.entries[1];
    assert t.entries == [d, e] && [d, e][..1] == [d] && [d][..0] == [];
    assert PlatformLegs([d], platform, c) ==
      if t.amount.currency == c && t.source in platform then -t.amount.amount else 0;
  }

  lemma PlatformAppended(transfers: seq<Transfer>, t: Transfer, platform: set<Uuid>, c: Currency)
    ensures PlatformSum(transfers + [t], platform, c)
         == PlatformSum(transfers, platform, c) + PlatformLegs(t.entries, platform, c)
  {
    assert (transfers + [t])[..|transfers|] == transfers;
  }

  /** What one posting does to the customers' balances in one currency. */
  lemma BalancesMoved(db: Db, t: Transfer, db': Db, c: Currency)
    requires Posts(db, t, db') && Grounded(db.accounts, t)
    ensures Total(CustomerBalances(db'.accounts, c)) == Total(CustomerBalances(db.accounts, c))
      + (if t.amount.currency == c && db.accounts[t.destination].kind == UserKind then t.amount.amount else 0)
      - (if t.amount.currency == c && db.accounts[t.source].kind == UserKind then t.amount.amount else 0)
  {
    var before, after := CustomerBalances(db.accounts, c), CustomerBalances(db'.accounts, c);
    forall a | a in db.accounts
      ensures a in before <==> a in after
      ensures a in before ==>
        after[a] == before[a] + (if a == t.destination then t.amount.amount else 0)
                              - (if a == t.source then t.amount.amount else 0)
    {
      MovedByLegs(db.accounts[a], a, t);
    }
    assert after.Keys == before.Keys;
    TotalMoved(before, after, t.source, t.destination, t.amount.amount);
  }

  lemma PostKeepsConserved(db: Db, t: Transfer, db': Db)
    requires Conserved(db) && Posts(db, t, db') && Grounded(db.accounts, t)
    ensures Conserved(db')
  {
    PlatformStays(db, t, db');
    forall c: Currency
      ensures Total(CustomerBalances(db'.accounts, c)) == -PlatformSum(db'.transfers, Platform(db'.accounts), c)
    {
      BalancesMoved(db, t, db', c);
      PlatformAppended(db.transfers, t, Platform(db.accounts), c);
      PlatformLegsOf(t, Platform(db.accounts), c);
    }
  }

  lemma PlatformStays(db: Db, t: Transfer, db': Db)
    requires Posts(db, t, db')
    ensures Platform(db'.accounts) == Platform(db.accounts)
  {
    forall a | a in db.accounts ensures db'.accounts[a].kind == db.accounts[a].kind {
      MovedKeepsColumns(db.accounts[a], a, t);
    }
  }

  // ---- every change keeps every book

  /** A change, on sound books, by an attempt whose transfer id is new. */
  ghost predicate Turns(db: Db, change: Change, db': Db) {
    && Sound(db) && Changes(db, change, db')
    && (change.Posted? ==> forall t | t in db.transfers :: t.id != change.transfer.id)
  }

  lemma PostKeepsSound(db: Db, t: Transfer, db': Db)
    requires Turns(db, Posted(t), db')
    ensures Sound(db')
  {
    PostingIsGrounded(db, t, db');
    PostKeepsRows(db, t, db');
    PostKeepsTransfers(db, t, db');
    PostKeepsUniqueIds(db.transfers, t);
    PostKeepsReconciled(db, t, db');
    PostKeepsClosedEmpty(db, t, db');
    PostKeepsDebtBounded(db, t, db');
    PostKeepsCovered(db, t, db');
    CoveredCrossings(db');
    PostKeepsRecorded(db, t, db');
    PostKeepsReversals(db.transfers, t, db);
    PostKeepsNaturalKeys(db, t, db');
    PostKeepsConserved(db, t, db');
  }

  lemma CloseKeepsRows(db: Db, a: Uuid, db': Db)
    requires RowsOk(db) && TransfersOk(db) && ClosedIsEmpty(db) && NaturalKeysUnique(db.accounts) && Closes(db, a, db')
    ensures RowsOk(db') && TransfersOk(db') && ClosedIsEmpty(db') && NaturalKeysUnique(db'.accounts)
  {
    forall t | t in db'.transfers ensures Grounded(db'.accounts, t) {
      GroundedStays(db.accounts, db'.accounts, t);
    }
  }

  lemma CloseKeepsBalances(db: Db, a: Uuid, db': Db)
    requires Reconciled(db) && DebtBounded(db) && DebitsCovered(db) && Conserved(db) && Closes(db, a, db')
    ensures Reconciled(db') && DebtBounded(db') && DebitsCovered(db') && Conserved(db')
  {
    hide EntrySum, EntryCount, ReversalDebits, PlatformSum, Total;
    assert Platform(db'.accounts) == Platform(db.accounts);
    forall c: Currency ensures CustomerBalances(db'.accounts, c) == CustomerBalances(db.accounts, c) {
    }
  }

  lemma CloseKeepsSound(db: Db, a: Uuid, db': Db)
    requires Turns(db, ClosedRow(a), db')
    ensures Sound(db')
  {
    CloseKeepsRows(db, a, db');
    CloseKeepsBalances(db, a, db');
    CoveredCrossings(db');
  }

  lemma OpenKeepsRows(db: Db, id: Uuid, db': Db)
    requires RowsOk(db) && TransfersOk(db) && ClosedIsEmpty(db) && NaturalKeysUnique(db.accounts) && Opens(db, id, db')
    ensures RowsOk(db') && TransfersOk(db') && ClosedIsEmpty(db') && NaturalKeysUnique(db'.accounts)
    ensures forall t | t in db.transfers :: TwoLegs(t) && t.source != id && t.destination != id
  {
    forall t | t in db'.transfers ensures Grounded(db'.accounts, t) {
      GroundedStays(db.accounts, db'.accounts, t);
    }
  }

  lemma OpenKeepsBalances(db: Db, id: Uuid, db': Db)
    requires Reconciled(db) && DebtBounded(db) && DebitsCovered(db) && Opens(db, id, db')
    requires forall t | t in db.transfers :: TwoLegs(t) && t.source != id && t.destination != id
    ensures Reconciled(db') && DebtBounded(db') && DebitsCovered(db')
  {
    hide EntrySum, EntryCount, ReversalDebits;
    NoLegsNoSum(db.transfers, id);
    DebitsNonNegative(db.transfers, id);
  }

  lemma OpenKeepsSound(db: Db, id: Uuid, db': Db)
    requires Turns(db, OpenedRow(id), db')
    ensures Sound(db')
  {
    OpenKeepsRows(db, id, db');
    OpenKeepsBalances(db, id, db');
    CoveredCrossings(db');
    OpenKeepsConserved(db, id, db');
  }

  lemma OpenKeepsConserved(db: Db, id: Uuid, db': Db)
    requires Conserved(db) && Opens(db, id, db')
    ensures Conserved(db')
  {
    assert Platform(db'.accounts) == Platform(db.accounts);
    forall c: Currency ensures Total(CustomerBalances(db'.accounts, c)) == Total(CustomerBalances(db.accounts, c)) {
      var before := CustomerBalances(db.accounts, c);
      if db'.accounts[id].currency == c {
        assert CustomerBalances(db'.accounts, c) == before[id := 0];
        TotalUpdated(before, id, 0);
      } else {
        assert CustomerBalances(db'.accounts, c) == before;
      }
    }
  }

  lemma TurnKeepsSound(db: Db, change: Change, db': Db)
    requires Turns(db, change, db')
    ensures Sound(db')
  {
    match change
    case Nothing =>
    case Posted(t) => PostKeepsSound(db, t, db');
    case ClosedRow(a) => CloseKeepsSound(db, a, db');
    case OpenedRow(id) => OpenKeepsSound(db, id, db');
  }

  /** Each currency nets to zero over the whole ledger: nothing is created or lost. */
  lemma {:induction false} LedgerNets(transfers: seq<Transfer>, c: Currency)
    requires forall t | t in transfers :: TwoLegs(t)
    ensures LedgerSum(transfers, c) == 0
  {
    if transfers != [] {
      var last := transfers[|transfers| - 1];
      LedgerNets(transfers[..|transfers| - 1], c);
      TwoLegsNet(last);
      NetsIffEveryCurrencyZero(last.entries);
      assert CurrencySum(last.entries, c) == 0;
    }
  }
}
