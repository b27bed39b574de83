/** What the reported start of a debt is the time of: a reversal's debit, as far as time order follows commit order. */
module DebtOrigins {
  import opened Accounts
  import opened Books
  import opened Chronology
  import opened Entries
  import opened Guarantees
  import opened Identifiers
  import opened LedgerSteps
  import opened NegativeEpisodes
  import opened Postings
  import opened Protocol
  import opened Results
  import opened Runs
  import opened Sorting
  import opened Store
  import opened Transfers

  /** Taken in commit order, the account's rows never go back in (time, id). */
  ghost predicate InStep(transfers: seq<Transfer>, a: Uuid) {
    Ascending(OfAccount(EntriesTable(transfers), a))
  }

  /** A customer account the report lists. */
  predicate Owes(db: Db, a: Uuid) {
    a in db.accounts && db.accounts[a].kind == UserKind && db.accounts[a].balance < 0
  }

  lemma OneLegEach(t: Transfer, a: Uuid)
    requires TwoLegs(t)
    ensures |OfAccount(t.entries, a)| <= 1
    ensures forall e | e in OfAccount(t.entries, a) :: e in t.entries && e.accountId == a
  {
    var d, c := t.entries[0], t.entries[1];
    assert t.entries == [d, c] && [d, c][..1] == [d] && [d][..0] == [];
    assert |OfAccount([d], a)| == if d.accountId == a then 1 else 0;
    OfAccountMembers(t.entries, a);
  }

  lemma DebitLeg(t: Transfer, e: Entry)
    requires TwoLegs(t) && e in t.entries && e.Signed().amount < 0
    ensures e.accountId == t.source && e.occurredAt == t.occurredAt
    ensures LegSum(t.entries, e.accountId) == e.Signed().amount
  {
    TwoLegsSums(t, e.accountId);
  }

  /** The transfer the account's k-th row, in commit order, belongs to; rows before it are the earlier transfers'. */
  lemma {:induction false} RowsTransfer(transfers: seq<Transfer>, a: Uuid, k: nat) returns (i: nat)
    requires forall t | t in transfers :: TwoLegs(t)
    requires k < |OfAccount(EntriesTable(transfers), a)|
    ensures i < |transfers| && OfAccount(EntriesTable(transfers), a)[k] in transfers[i].entries
    ensures SignedSum(OfAccount(EntriesTable(transfers), a)[..k]) == EntrySum(transfers[..i], a)
  {
    var n := |transfers| - 1;
    var front, last := transfers[..n], transfers[n];
    var rows := OfAccount(EntriesTable(front), a);
    OfAccountConcat(EntriesTable(front), last.entries, a);
    OneLegEach(last, a);
    if k < |rows| {
      i := RowsTransfer(front, a, k);
      assert (rows + OfAccount(last.entries, a))[..k] == rows[..k];
      assert front[..i] == transfers[..i];
    } else {
      i := n;
      TableSum(front, a);
      assert (rows + OfAccount(last.entries, a))[..k] == rows;
      assert OfAccount(last.entries, a)[0] in OfAccount(last.entries, a);
    }
  }

  /** A debit that is preceded by what was committed before it takes the balance where it did at its commit. */
  lemma CrossesWhereCommitted(transfers: seq<Transfer>, a: Uuid, window: seq<Entry>, k: nat, i: nat)
    requires k < |window| && EpisodeStart(window, k)
    requires i < |transfers| && TwoLegs(transfers[i]) && window[k] in transfers[i].entries && window[k].accountId == a
    requires SignedSum(window[..k]) == EntrySum(transfers[..i], a)
    ensures CrossesAt(transfers, a, i) && transfers[i].source == a
    ensures window[k].occurredAt == transfers[i].occurredAt
  {
    assert window[..k + 1][..k] == window[..k];
    assert k > 0 ==> window[..k - 1 + 1] == window[..k];
    DebitLeg(transfers[i], window[k]);
    assert transfers[..i + 1][..i] == transfers[..i];
  }

  /**
   * When an account's rows are in step, its debt is reported as starting at the time of a reversal that debits it:
   * the commit-order law about debts carries over to the query's time order.
   */
  lemma DebtStartsAtReversal(db: Db, a: Uuid) returns (i: nat)
    requires Reconciled(db) && TransfersOk(db) && DebtsStartAtReversals(db)
    requires Owes(db, a) && InStep(db.transfers, a)
    ensures i < |db.transfers| && db.transfers[i].reverses.Some? && db.transfers[i].source == a
    ensures a in NegativeBalances(db) && NegativeBalances(db)[a] == Some(db.transfers[i].occurredAt.micros)
  {
    hide EpisodeStart, Reconciled, TransfersOk, DebtsStartAtReversals, CrossesAt, Ascending, SignedSum, EntriesTable;
    var window := Window(db.transfers, a);
    SameWindow(db.transfers, a);
    AllTwoLegs(db);
    var k := EveryDebtIsExplained(db, a);
    i := RowsTransfer(db.transfers, a, k);
    OfAccountMembers(EntriesTable(db.transfers), a);
    assert window[k] in window;
    CrossesWhereCommitted(db.transfers, a, window, k, i);
    CrossingReverses(db, a, i);
  }

  lemma SameWindow(transfers: seq<Transfer>, a: Uuid)
    ensures InStep(transfers, a) <==> Window(transfers, a) == OfAccount(EntriesTable(transfers), a)
  {
    InOrderSorts(OfAccount(EntriesTable(transfers), a), Before);
    SortedAlready(OfAccount(EntriesTable(transfers), a), Before);
  }

  lemma AllTwoLegs(db: Db)
    requires TransfersOk(db)
    ensures forall t | t in db.transfers :: TwoLegs(t)
  {
    forall t | t in db.transfers ensures TwoLegs(t) {
      assert Grounded(db.accounts, t);
    }
  }

  lemma CrossingReverses(db: Db, a: Uuid, i: nat)
    requires DebtsStartAtReversals(db) && a in db.accounts && db.accounts[a].kind == UserKind
    requires i < |db.transfers| && CrossesAt(db.transfers, a, i)
    ensures db.transfers[i].reverses.Some? && db.transfers[i].source == a
  {
  }

  /** In every reachable state, for every customer in debt whose rows are in step. */
  lemma ReachableDebtStartsAtReversal(run: seq<State>, n: nat, a: Uuid) returns (i: nat)
    requires IsRun(run) && n < |run| && Owes(run[n].db, a) && InStep(run[n].db.transfers, a)
    ensures
      var db := run[n].db;
      && i < |db.transfers| && db.transfers[i].reverses.Some? && db.transfers[i].source == a
      && a in NegativeBalances(db) && NegativeBalances(db)[a] == Some(db.transfers[i].occurredAt.micros)
  {
    hide IsRun, InStep, NegativeBalances;
    BooksHold(run, n);
    i := DebtStartsAtReversal(run[n].db, a);
  }

  // ---- whatever the order

  /** An ordinary debit can only start an episode when it stands before money that was committed ahead of it. */
  lemma ReversalUnlessLate(db: Db, a: Uuid, window: seq<Entry>, k: nat, i: nat)
    requires DebitsCovered(db) && a in db.accounts && db.accounts[a].kind == UserKind
    requires k < |window| && EpisodeStart(window, k)
    requires i < |db.transfers| && TwoLegs(db.transfers[i])
    requires window[k] in db.transfers[i].entries && window[k].accountId == a
    ensures db.transfers[i].source == a && window[k].occurredAt == db.transfers[i].occurredAt
    ensures SignedSum(window[..k]) >= EntrySum(db.transfers[..i], a) ==> db.transfers[i].reverses.Some?
    ensures db.transfers[i].reverses.None? ==>
      SignedSum(window[..k]) < db.transfers[i].amount.amount <= EntrySum(db.transfers[..i], a)
  {
    assert window[..k + 1][..k] == window[..k];
    assert k > 0 ==> window[..k - 1 + 1] == window[..k];
    DebitLeg(db.transfers[i], window[k]);
  }

  /**
   * Every reported start is the time of a debit of the customer: a reversal's, or an ordinary one that had been covered
   * when it was committed but, in time order, stands before some of what covered it.
   */
  lemma DebtStartsAtReversalUnlessLate(db: Db, a: Uuid) returns (k: nat, i: nat)
    requires Reconciled(db) && TransfersOk(db) && DebitsCovered(db) && Owes(db, a)
    ensures OpenEpisode(Window(db.transfers, a), k) && i < |db.transfers|
    ensures Window(db.transfers, a)[k] in db.transfers[i].entries && db.transfers[i].source == a
    ensures a in NegativeBalances(db) && NegativeBalances(db)[a] == Some(db.transfers[i].occurredAt.micros)
    ensures SignedSum(Window(db.transfers, a)[..k]) >= EntrySum(db.transfers[..i], a) ==>
      db.transfers[i].reverses.Some?
    ensures db.transfers[i].reverses.None? ==>
      SignedSum(Window(db.transfers, a)[..k]) < db.transfers[i].amount.amount <= EntrySum(db.transfers[..i], a)
  {
    hide EpisodeStart, Reconciled, TransfersOk, DebitsCovered, Sorted, OfAccount, SignedSum, EntriesTable;
    var window := Window(db.transfers, a);
    AllTwoLegs(db);
    k := EveryDebtIsExplained(db, a);
    SortedIsSort(OfAccount(EntriesTable(db.transfers), a));
    OfAccountMembers(EntriesTable(db.transfers), a);
    assert window[k] in window;
    i := TransferOfRow(db.transfers, window[k]);
    ReversalUnlessLate(db, a, window, k, i);
  }

  /** In every reachable state, with nothing assumed about any order. */
  lemma ReachableDebtStart(run: seq<State>, n: nat, a: Uuid) returns (k: nat, i: nat)
    requires IsRun(run) && n < |run| && Owes(run[n].db, a)
    ensures
      var (db, window) := (run[n].db, Window(run[n].db.transfers, a));
      && OpenEpisode(window, k) && i < |db.transfers|
      && window[k] in db.transfers[i].entries && db.transfers[i].source == a
      && a in NegativeBalances(db) && NegativeBalances(db)[a] == Some(db.transfers[i].occurredAt.micros)
      && (SignedSum(window[..k]) >= EntrySum(db.transfers[..i], a) ==> db.transfers[i].reverses.Some?)
      && (db.transfers[i].reverses.None? ==>
            SignedSum(window[..k]) < db.transfers[i].amount.amount <= EntrySum(db.transfers[..i], a))
  {
    hide IsRun, NegativeBalances, Window, OpenEpisode, SignedSum, EntrySum;
    BooksHold(run, n);
    k, i := DebtStartsAtReversalUnlessLate(run[n].db, a);
  }

  /** Every ordinary payment of every run was covered when it was committed. */
  lemma PaymentsCovered(run: seq<State>, n: nat, i: nat)
    requires IsRun(run) && n < |run| && i < |run[n].db.transfers| && run[n].db.transfers[i].reverses.None?
    ensures
      var db, t := run[n].db, run[n].db.transfers[i];
      t.source in db.accounts && (db.accounts[t.source].kind == UserKind ==>
        EntrySum(db.transfers[..i], t.source) >= t.amount.amount)
  {
    hide IsRun;
    BooksHold(run, n);
    assert run[n].db.transfers[i] in run[n].db.transfers;
  }
}
