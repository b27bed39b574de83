/** Since when an account has been in debt: a running balance in time order, and its last crossing below zero. */
module NegativeEpisodes {
  import opened Accounts
  import opened Books
  import opened Chronology
  import opened Entries
  import opened Guarantees
  import opened Identifiers
  import opened LedgerSteps
  import opened Results
  import opened Runs
  import opened Sorting
  import opened Protocol
  import opened Store
  import opened Transfers

  function SignedSum(entries: seq<Entry>): int {
    if entries == [] then 0
    else SignedSum(entries[..|entries| - 1]) + entries[|entries| - 1].Signed().amount
  }

  /** The window sum up to and including row `i`. */
  function Running(window: seq<Entry>, i: nat): int
    requires i < |window|
  {
    SignedSum(window[..i + 1])
  }

  /** The row before's running balance, zero before the first. */
  function Previous(window: seq<Entry>, i: nat): int
    requires i < |window|
  {
    if i == 0 then 0 else Running(window, i - 1)
  }

  predicate EpisodeStart(window: seq<Entry>, i: nat)
    requires i < |window|
  {
    Running(window, i) < 0 && Previous(window, i) >= 0
  }

  /** MAX over the starts among the first `n` rows; None is SQL's NULL. */
  function LatestStart(window: seq<Entry>, n: nat): Option<int>
    requires n <= |window|
  {
    if n == 0 then None
    else
      var sofar := LatestStart(window, n - 1);
      if !EpisodeStart(window, n - 1) then sofar
      else
        var at := window[n - 1].occurredAt.micros;
        if sofar.Some? && sofar.value > at then sofar else Some(at)
  }

  function NegativeSince(window: seq<Entry>): Option<int> {
    LatestStart(window, |window|)
  }

  /** The start of the episode that is still open at the end of the window. */
  ghost predicate OpenEpisode(window: seq<Entry>, k: nat) {
    k < |window| && EpisodeStart(window, k) && forall j | k <= j < |window| :: Running(window, j) < 0
  }

  // ---- what the query finds

  lemma {:induction false} LatestStartIsMax(window: seq<Entry>, n: nat)
    requires n <= |window|
    ensures LatestStart(window, n).None? <==> forall i | 0 <= i < n :: !EpisodeStart(window, i)
    ensures LatestStart(window, n).Some? ==>
      && (exists i :: 0 <= i < n && EpisodeStart(window, i)
                      && window[i].occurredAt.micros == LatestStart(window, n).value)
      && forall i | 0 <= i < n && EpisodeStart(window, i) ::
           window[i].occurredAt.micros <= LatestStart(window, n).value
  {
    hide EpisodeStart;
    if n > 0 {
      LatestStartIsMax(window, n - 1);
    }
  }

  /** A negative running balance has a start at or before it, with nothing but negatives between. */
  lemma {:induction false} NegativeHasStart(window: seq<Entry>, i: nat) returns (k: nat)
    requires i < |window| && Running(window, i) < 0
    ensures k <= i && EpisodeStart(window, k) && forall j | k <= j <= i :: Running(window, j) < 0
  {
    if Previous(window, i) >= 0 {
      k := i;
    } else {
      k := NegativeHasStart(window, i - 1);
    }
  }

  /** NULL means exactly that no running balance was ever negative. */
  lemma NullIffNeverNegative(window: seq<Entry>)
    ensures NegativeSince(window).None? <==> forall i | 0 <= i < |window| :: Running(window, i) >= 0
  {
    LatestStartIsMax(window, |window|);
    if i :| 0 <= i < |window| && Running(window, i) < 0 {
      var _ := NegativeHasStart(window, i);
    }
  }

  /** While an episode is open no other can start. */
  lemma StartsUpTo(window: seq<Entry>, k: nat)
    requires OpenEpisode(window, k)
    ensures forall i | 0 <= i < |window| && EpisodeStart(window, i) :: i <= k
    ensures forall l | OpenEpisode(window, l) :: l == k
  {
  }

  /** In time order the latest start is the last one. */
  lemma LastStartIsLatest(window: seq<Entry>, k: nat)
    requires Ascending(window) && k < |window| && EpisodeStart(window, k)
    requires forall i | 0 <= i < |window| && EpisodeStart(window, i) :: i <= k
    ensures NegativeSince(window) == Some(window[k].occurredAt.micros)
  {
    hide EpisodeStart, LatestStart;
    LatestStartIsMax(window, |window|);
    var i :| 0 <= i < |window| && EpisodeStart(window, i)
             && window[i].occurredAt.micros == NegativeSince(window).value;
    if i < k {
      assert !Before(window[k], window[i]);
    }
  }

  /** In time order, the query reports the start of the one open episode whenever the total is negative. */
  lemma ReportsOpenEpisode(window: seq<Entry>) returns (k: nat)
    requires Ascending(window) && SignedSum(window) < 0
    ensures OpenEpisode(window, k) && forall l | OpenEpisode(window, l) :: l == k
    ensures NegativeSince(window) == Some(window[k].occurredAt.micros)
  {
    hide EpisodeStart, NegativeSince;
    assert window[..|window|] == window;
    k := NegativeHasStart(window, |window| - 1);
    StartsUpTo(window, k);
    LastStartIsLatest(window, k);
  }

  // ---- the query over the tables

  /** The entries table: every leg of every transfer. */
  function EntriesTable(transfers: seq<Transfer>): seq<Entry> {
    if transfers == [] then []
    else EntriesTable(transfers[..|transfers| - 1]) + transfers[|transfers| - 1].entries
  }

  lemma {:induction false} TransferOfRow(transfers: seq<Transfer>, e: Entry) returns (i: nat)
    requires e in EntriesTable(transfers)
    ensures i < |transfers| && e in transfers[i].entries
  {
    i := |transfers| - 1;
    if e !in transfers[i].entries {
      i := TransferOfRow(transfers[..i], e);
    }
  }

  function Window(transfers: seq<Transfer>, a: Uuid): seq<Entry> {
    Sorted(OfAccount(EntriesTable(transfers), a))
  }

  /** Negative customer accounts, left-joined with the start of their episode. */
  function NegativeBalances(db: Db): map<Uuid, Option<int>> {
    map a | a in db.accounts && db.accounts[a].kind == UserKind && db.accounts[a].balance < 0 ::
      NegativeSince(Window(db.transfers, a))
  }

  /** Exactly the customer accounts in debt are reported. */
  lemma ReportedIffInDebt(db: Db, a: Uuid)
    ensures a in NegativeBalances(db) <==>
      a in db.accounts && db.accounts[a].kind == UserKind && db.accounts[a].balance < 0
  {
  }

  lemma {:induction false} SumConcat(xs: seq<Entry>, ys: seq<Entry>)
    ensures SignedSum(xs + ys) == SignedSum(xs) + SignedSum(ys)
  {
    if ys == [] {
      assert xs + ys == xs;
    } else {
      SumConcat(xs, ys[..|ys| - 1]);
      assert (xs + ys)[..|xs + ys| - 1] == xs + ys[..|ys| - 1];
    }
  }

  lemma {:induction false} SumInsert(s: seq<Entry>, e: Entry)
    ensures SignedSum(Slotted(s, e, Before)) == SignedSum(s) + e.Signed().amount
  {
    if s != [] && Before(e, s[|s| - 1]) {
      SumInsert(s[..|s| - 1], e);
      assert Slotted(s, e, Before)[..|s|] == Slotted(s[..|s| - 1], e, Before);
    } else {
      assert (s + [e])[..|s|] == s;
    }
  }

  lemma {:induction false} SumSorted(s: seq<Entry>)
    ensures SignedSum(Sorted(s)) == SignedSum(s)
  {
    if s != [] {
      SumSorted(s[..|s| - 1]);
      SumInsert(Sorted(s[..|s| - 1]), s[|s| - 1]);
    }
  }

  lemma {:induction false} SumOfAccount(entries: seq<Entry>, a: Uuid)
    ensures SignedSum(OfAccount(entries, a)) == LegSum(entries, a)
  {
    if entries != [] {
      SumOfAccount(entries[..|entries| - 1], a);
      var front, last := OfAccount(entries[..|entries| - 1], a), entries[|entries| - 1];
      if last.accountId == a {
        assert OfAccount(entries, a) == front + [last] && (front + [last])[..|front|] == front;
      } else {
        assert OfAccount(entries, a) == front;
      }
    }
  }

  lemma {:induction false} OfAccountConcat(xs: seq<Entry>, ys: seq<Entry>, a: Uuid)
    ensures OfAccount(xs + ys, a) == OfAccount(xs, a) + OfAccount(ys, a)
  {
    if ys == [] {
      assert xs + ys == xs;
    } else {
      OfAccountConcat(xs, ys[..|ys| - 1], a);
      assert (xs + ys)[..|xs + ys| - 1] == xs + ys[..|ys| - 1];
    }
  }

  /** Whatever the layout of the table, an account's rows add up to its entry sum. */
  lemma {:induction false} TableSum(transfers: seq<Transfer>, a: Uuid)
    ensures SignedSum(OfAccount(EntriesTable(transfers), a)) == EntrySum(transfers, a)
  {
    if transfers != [] {
      var front, last := transfers[..|transfers| - 1], transfers[|transfers| - 1];
      TableSum(front, a);
      OfAccountConcat(EntriesTable(front), last.entries, a);
      SumConcat(OfAccount(EntriesTable(front), a), OfAccount(last.entries, a));
      SumOfAccount(last.entries, a);
    }
  }

  /** The last running balance is the account's entry sum. */
  lemma WindowSum(transfers: seq<Transfer>, a: Uuid)
    ensures SignedSum(Window(transfers, a)) == EntrySum(transfers, a)
  {
    SumSorted(OfAccount(EntriesTable(transfers), a));
    TableSum(transfers, a);
  }

  /** On reconciled books every account in debt is reported, with the start of its open episode. */
  lemma EveryDebtIsExplained(db: Db, a: Uuid) returns (k: nat)
    requires Reconciled(db) && a in db.accounts && db.accounts[a].kind == UserKind && db.accounts[a].balance < 0
    ensures a in NegativeBalances(db)
    ensures OpenEpisode(Window(db.transfers, a), k)
    ensures NegativeBalances(db)[a] == Some(Window(db.transfers, a)[k].occurredAt.micros)
  {
    WindowSum(db.transfers, a);
    SortedIsSort(OfAccount(EntriesTable(db.transfers), a));
    k := ReportsOpenEpisode(Window(db.transfers, a));
  }

  /** So in no reachable state is a reported account unexplained. */
  lemma NothingUnexplained(run: seq<State>, i: nat, a: Uuid)
    requires IsRun(run) && i < |run| && a in NegativeBalances(run[i].db)
    ensures NegativeBalances(run[i].db)[a].Some?
  {
    BooksHold(run, i);
    var _ := EveryDebtIsExplained(run[i].db, a);
  }
}
