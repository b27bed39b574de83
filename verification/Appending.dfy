/** The ledger of a run is append-only and its entry ids are unique, so pages read while it runs miss nothing. */
module Appending {
  import opened Books
  import opened Entries
  import opened Guarantees
  import opened Identifiers
  import opened Isolation
  import opened Ledger
  import opened LedgerSteps
  import opened Linearization
  import opened Movements
  import opened NegativeEpisodes
  import opened Protocol
  import opened Requests
  import opened Results
  import opened Runs
  import opened Store
  import opened Transfers

  // ---- transfers and entries are only ever appended

  lemma TurnAppends(db: Db, change: Change, db': Db)
    requires Changes(db, change, db')
    ensures db.transfers <= db'.transfers
  {
  }

  lemma {:induction false} LedgerGrows(run: seq<State>, i: nat, j: nat)
    requires IsRun(run) && i <= j < |run|
    ensures run[i].db.transfers <= run[j].db.transfers
  {
    hide Sound, Changes, Inv, Next;
    if i < j {
      LedgerGrows(run, i, j - 1);
      BooksHold(run, j - 1);
      RunKeepsInv(run, j - 1);
      assert Follows(run[j - 1], run[j]);
      var e :| Next(run[j - 1], e, run[j]);
      var change := NextTurns(run[j - 1], e, run[j]);
      TurnAppends(run[j - 1].db, change, run[j].db);
    }
  }

  lemma {:induction false} TableGrows(transfers: seq<Transfer>, later: seq<Transfer>)
    requires transfers <= later
    ensures EntriesTable(transfers) <= EntriesTable(later)
  {
    if |transfers| == |later| {
      assert transfers == later;
    } else {
      TableGrows(transfers, later[..|later| - 1]);
    }
  }

  // ---- entry ids

  /**
   * Every transfer is what the call that minted its id returned, its legs carry the ids that call minted, and no two
   * calls minted an entry id in common.
   */
  ghost predicate EntriesMinted(s: State) {
    && (forall t | t in s.db.transfers ::
          && t.id in s.calls && s.calls[t.id].phase.Finished? && s.calls[t.id].phase.outcome.Returned?
          && Stored(s.calls[t.id].phase.outcome.transfer) == t && |t.entries| == 2
          && t.entries[0].id == s.calls[t.id].minted.debitId && t.entries[1].id == s.calls[t.id].minted.creditId)
    && (forall i | i in s.calls :: s.calls[i].minted.debitId != s.calls[i].minted.creditId)
    && forall i, j | i in s.calls && j in s.calls && i != j ::
         s.calls[i].minted.EntryIds() !! s.calls[j].minted.EntryIds()
  }

  /** One call going on keeps all of it, provided any new transfer is that call's own. */
  lemma OneCallKeepsMinted(s: State, s': State, id: Uuid)
    requires EntriesMinted(s) && id in s.calls && s.calls[id].Open() && id in s'.calls
    requires s'.calls == s.calls[id := s.calls[id].(phase := s'.calls[id].phase)]
    requires forall t | t in s'.db.transfers && t !in s.db.transfers ::
      && t.id == id && s'.calls[id].phase.Finished? && s'.calls[id].phase.outcome.Returned?
      && Stored(s'.calls[id].phase.outcome.transfer) == t && |t.entries| == 2
      && t.entries[0].id == s.calls[id].minted.debitId && t.entries[1].id == s.calls[id].minted.creditId
    ensures EntriesMinted(s')
  {
  }

  lemma AdvanceKeepsMinted(s: State, id: Uuid)
    requires Inv(s) && EntriesMinted(s) && Enabled(s, Advance(id))
    ensures EntriesMinted(Take(s, Advance(id)))
  {
    hide Execute, Act, Changes, Frame, PhaseOk, EntriesMinted;
    var call, s' := s.calls[id], Take(s, Advance(id));
    Step(s.db, id, call);
    if s'.calls[id].phase.Finished? {
      var change := ExecuteChanges(s.db, call.request, call.minted);
      ChangedTransfers(s.db, change, s'.db);
    }
    OneCallKeepsMinted(s, s', id);
  }

  lemma ChangedTransfers(db: Db, change: Change, db': Db)
    requires Changes(db, change, db')
    ensures forall t | t in db'.transfers :: t in db.transfers || change == Posted(t)
  {
  }

  lemma BeginKeepsMinted(s: State, request: Request, minted: Minted)
    requires WellPhasedAll(s) && EntriesMinted(s) && Enabled(s, Begin(request, minted))
    ensures EntriesMinted(Take(s, Begin(request, minted)))
  {
    hide WellPhasedAll;
  }

  lemma CrashKeepsMinted(s: State, id: Uuid)
    requires WellPhasedAll(s) && EntriesMinted(s) && Enabled(s, Crash(id))
    ensures EntriesMinted(Take(s, Crash(id)))
  {
    hide WellPhasedAll;
  }

  lemma NextKeepsMinted(s: State, e: Event, s': State)
    requires Inv(s) && EntriesMinted(s) && Next(s, e, s')
    ensures EntriesMinted(s')
  {
    hide Inv, Act, WellPhasedAll;
    match e
    case Begin(request, minted) => BeginKeepsMinted(s, request, minted);
    case Crash(id) => CrashKeepsMinted(s, id);
    case OpenAccount(_, _, _, _) =>
    case Advance(id) => AdvanceKeepsMinted(s, id);
  }

  lemma {:induction false} RunKeepsMinted(run: seq<State>, i: nat)
    requires IsRun(run) && i < |run|
    ensures EntriesMinted(run[i])
  {
    hide Inv, Next;
    if i > 0 {
      RunKeepsMinted(run, i - 1);
      RunKeepsInv(run, i - 1);
      assert Follows(run[i - 1], run[i]);
      var e :| Next(run[i - 1], e, run[i]);
      NextKeepsMinted(run[i - 1], e, run[i]);
    }
  }

  /** A transfer in the ledger is the one its own call was answered with. */
  lemma TransfersWereReturned(run: seq<State>, i: nat, t: Transfer)
    requires IsRun(run) && i < |run| && t in run[i].db.transfers
    ensures t.id in run[i].calls && run[i].calls[t.id].phase.Finished? && run[i].calls[t.id].phase.outcome.Returned?
    ensures Stored(run[i].calls[t.id].phase.outcome.transfer) == t
  {
    RunKeepsMinted(run, i);
  }

  /** A call that ends refused changes no table at the step that ends it, and never has a transfer in the ledger. */
  lemma FailureLeavesNoTrace(run: seq<State>, i: nat, id: Uuid) returns (k: nat)
    requires IsRun(run) && i < |run| && id in run[i].calls
    requires run[i].calls[id].phase.Finished? && run[i].calls[id].phase.outcome.Failed?
    ensures k < i && id in run[k].calls && run[k].calls[id].Open()
    ensures id in run[k + 1].calls && run[k + 1].calls[id] == run[i].calls[id]
    ensures run[k + 1].db == run[k].db
    ensures forall t | t in run[i].db.transfers :: t.id != id
  {
    hide IsRun, Sound, Prepare, Request.Canonical;
    k := CompletionPoint(run, i, id);
    forall t | t in run[i].db.transfers ensures t.id != id {
      TransfersWereReturned(run, i, t);
    }
  }

  lemma {:induction false} TableIdsUnique(transfers: seq<Transfer>, s: State)
    requires EntriesMinted(s) && UniqueIds(transfers) && forall t | t in transfers :: t in s.db.transfers
    ensures UniqueEntryIds(EntriesTable(transfers))
  {
    if transfers != [] {
      var n := |transfers| - 1;
      var front, last := transfers[..n], transfers[n];
      TableIdsUnique(front, s);
      assert last in s.db.transfers;
      forall e | e in EntriesTable(front) ensures e.id !in {last.entries[0].id, last.entries[1].id} {
        var i := TransferOfRow(front, e);
        var t := front[i];
        assert t in s.db.transfers && t.id != last.id;
        assert e.id in s.calls[t.id].minted.EntryIds();
        assert s.calls[t.id].minted.EntryIds() !! s.calls[last.id].minted.EntryIds();
      }
    }
  }

  /** The primary key of the entries table, in every reachable state. */
  lemma EntryIdsUnique(run: seq<State>, i: nat)
    requires IsRun(run) && i < |run|
    ensures UniqueEntryIds(EntriesTable(run[i].db.transfers))
  {
    hide IsRun, EntriesMinted, EntriesTable;
    BooksHold(run, i);
    RunKeepsMinted(run, i);
    TableIdsUnique(run[i].db.transfers, run[i]);
  }

  // ---- paging while the ledger runs

  /** The entries table as it stood at each of these moments of the run. */
  function TablesAt(run: seq<State>, moments: seq<nat>): seq<seq<Entry>>
    requires forall i | i in moments :: i < |run|
  {
    seq(|moments|, k requires 0 <= k < |moments| =>
      assert moments[k] in moments; EntriesTable(run[moments[k]].db.transfers))
  }

  /** Each page is read at its own moment, behind the cursor of the one before, until no cursor is left. */
  ghost predicate PagedDuring(
    run: seq<State>, moments: seq<nat>, pages: seq<Page>, a: Uuid, limit: nat, start: Option<Cursor>)
    requires limit >= 1
  {
    && |moments| == |pages| >= 1 && moments[0] < |run|
    && pages[0] == FindByAccount(EntriesTable(run[moments[0]].db.transfers), a, limit, start)
    && if pages[0].next.None? then |pages| == 1
       else
         && |pages| > 1 && moments[0] <= moments[1]
         && PagedDuring(run, moments[1..], pages[1..], a, limit, pages[0].next)
  }

  lemma {:induction false} PagedTraverses(
    run: seq<State>, moments: seq<nat>, pages: seq<Page>, a: Uuid, limit: nat, start: Option<Cursor>)
    requires IsRun(run) && limit >= 1 && PagedDuring(run, moments, pages, a, limit, start)
    ensures forall i | i in moments :: i < |run|
    ensures Traversal(TablesAt(run, moments), pages, a, limit, start)
    decreases |pages|
  {
    hide IsRun, EntriesTable, FindByAccount;
    EntryIdsUnique(run, moments[0]);
    if pages[0].next.Some? {
      PagedTraverses(run, moments[1..], pages[1..], a, limit, pages[0].next);
      assert moments == [moments[0]] + moments[1..];
      assert TablesAt(run, moments)[1..] == TablesAt(run, moments[1..]);
      LedgerGrows(run, moments[0], moments[1]);
      TableGrows(run[moments[0]].db.transfers, run[moments[1]].db.transfers);
    }
  }

  /**
   * Pages read from a live ledger, whatever is posted in between and with whatever timestamps: every movement of the
   * account that was there at the first page is listed, none twice, newest first.
   */
  lemma LivePagesVisitAllOnce(
    run: seq<State>, moments: seq<nat>, pages: seq<Page>, a: Uuid, limit: nat)
    requires IsRun(run) && limit >= 1 && PagedDuring(run, moments, pages, a, limit, None)
    ensures StrictlyDescending(Visited(pages))
    ensures forall e | e in EntriesTable(run[moments[0]].db.transfers) && e.accountId == a :: e in Visited(pages)
    ensures forall e | e in Visited(pages) :: e.accountId == a
    ensures moments[|moments| - 1] < |run|
    ensures forall e | e in Visited(pages) :: e in EntriesTable(run[moments[|moments| - 1]].db.transfers)
  {
    hide IsRun, EntriesTable, FindByAccount, Traversal, PagedDuring;
    Opens(run, moments, pages, a, limit);
    PagedTraverses(run, moments, pages, a, limit, None);
    VisitsAllOnce(TablesAt(run, moments), pages, a, limit, None);
    assert moments[|moments| - 1] in moments;
  }

  lemma Opens(run: seq<State>, moments: seq<nat>, pages: seq<Page>, a: Uuid, limit: nat)
    requires limit >= 1 && PagedDuring(run, moments, pages, a, limit, None)
    ensures |moments| == |pages| >= 1
  {
  }
}
