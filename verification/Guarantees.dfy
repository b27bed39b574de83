/** What the service promises, for every reachable state of every interleaving. */
module Guarantees {
  import opened Accounts
  import opened Books
  import opened Entries
  import opened Histories
  import opened Identifiers
  import opened Isolation
  import opened Ledger
  import opened LedgerSteps
  import opened Linearization
  import opened Money
  import opened Postings
  import opened Protocol
  import opened Requests
  import opened Results
  import opened Runs
  import opened Store
  import opened StoreReload
  import opened Sums
  import opened Transfers

  // ---- the books hold throughout

  lemma MigratedIsSound(db: Db)
    requires Migrated(db)
    ensures Sound(db)
  {
    forall c: Currency ensures CustomerBalances(db.accounts, c) == map[] {
    }
  }

  /** Whatever happens next, the tables change by at most one sound turn. */
  lemma NextTurns(s: State, e: Event, s': State) returns (change: Change)
    requires Inv(s) && Sound(s.db) && Next(s, e, s')
    ensures Turns(s.db, change, s'.db)
  {
    hide Sound, Posts, Records, Ordinary, Reversal, Closes, Opens;
    match e
    case Begin(_, _) => change := Nothing;
    case Crash(_) => change := Nothing;
    case OpenAccount(id, owner, purpose, currency) =>
      change := OpenChanges(s.db, id, owner, purpose, currency);
    case Advance(id) =>
      var call := s.calls[id];
      Step(s.db, id, call);
      if Act(s.db, call).phase.Finished? {
        change := ExecuteChanges(s.db, call.request, call.minted);
      } else {
        change := Nothing;
      }
  }

  /** Balances explained, money conserved, debts bounded, records answered for: in every reachable state. */
  lemma {:induction false} BooksHold(run: seq<State>, i: nat)
    requires IsRun(run) && i < |run|
    ensures Sound(run[i].db)
  {
    hide Sound, Turns;
    if i == 0 {
      MigratedIsSound(run[0].db);
    } else {
      BooksHold(run, i - 1);
      RunKeepsInv(run, i - 1);
      assert Follows(run[i - 1], run[i]);
      var e :| Next(run[i - 1], e, run[i]);
      var change := NextTurns(run[i - 1], e, run[i]);
      TurnKeepsSound(run[i - 1].db, change, run[i].db);
    }
  }

  /** No money is created or lost: each currency nets to zero, customers hold what the platform paid out. */
  lemma NoMoneyCreatedOrLost(run: seq<State>, i: nat, c: Currency)
    requires IsRun(run) && i < |run|
    ensures LedgerSum(run[i].db.transfers, c) == 0
    ensures Total(CustomerBalances(run[i].db.accounts, c))
         == -PlatformSum(run[i].db.transfers, Platform(run[i].db.accounts), c)
  {
    BooksHold(run, i);
    LedgerNets(run[i].db.transfers, c);
  }

  // ---- closed is for good

  lemma TurnKeepsClosed(db: Db, change: Change, db': Db, a: Uuid)
    requires Turns(db, change, db') && a in db.accounts && db.accounts[a].status == Closed
    ensures a in db'.accounts && db'.accounts[a] == db.accounts[a]
    ensures EntryCount(db'.transfers, a) == EntryCount(db.transfers, a)
  {
    if change.Posted? {
      MovedByLegs(db.accounts[a], a, change.transfer);
      TwoLegsSums(change.transfer, a);
      SumsAppended(db.transfers, change.transfer, a);
    }
  }

  /** Once closed, an account is empty, stays closed, and gets no further entry, whatever races it. */
  lemma {:induction false} ClosedForGood(run: seq<State>, i: nat, j: nat, a: Uuid)
    requires IsRun(run) && i <= j < |run|
    requires a in run[i].db.accounts && run[i].db.accounts[a].status == Closed
    ensures a in run[j].db.accounts && run[j].db.accounts[a] == run[i].db.accounts[a]
    ensures EntryCount(run[j].db.transfers, a) == EntryCount(run[i].db.transfers, a)
    ensures run[j].db.accounts[a].balance == 0
    ensures run[j].db.accounts[a].kind == UserKind && EntrySum(run[j].db.transfers, a) == 0
  {
    hide Sound, Inv, Next, EntrySum, EntryCount;
    BooksHold(run, j);
    if i < j {
      ClosedForGood(run, i, j - 1, a);
      BooksHold(run, j - 1);
      RunKeepsInv(run, j - 1);
      assert Follows(run[j - 1], run[j]);
      var e :| Next(run[j - 1], e, run[j]);
      var change := NextTurns(run[j - 1], e, run[j]);
      TurnKeepsClosed(run[j - 1].db, change, run[j].db, a);
    }
    ClosedIsSettled(run[j].db, a);
  }

  lemma ClosedIsSettled(db: Db, a: Uuid)
    requires Sound(db) && a in db.accounts && db.accounts[a].status == Closed
    ensures db.accounts[a].kind == UserKind && db.accounts[a].balance == 0 && EntrySum(db.transfers, a) == 0
  {
  }

  // ---- at most once

  /** The transfer this request was answered with is recorded under its key, with its own payload. */
  ghost predicate Answered(db: Db, req: Request, t: Transfer) {
    && req.MovesMoney()
    && req.RetryKey() in db.records
    && db.records[req.RetryKey()].transferId == t.id
    && db.records[req.RetryKey()].hash == req.Canonical()
    && Stored(t) in db.transfers
  }

  lemma PublishAnswers(db: Db, req: Request, m: Minted, p: Posting)
    requires req.MovesMoney() && Prepare(db, req, m) == Ok(p)
    ensures Answered(Publish(db, req, m, p), req, p.transfer)
  {
    hide Prepare, UpdateAll, Backed, Mirrors, SourceId, DestinationId, Request.Canonical;
    var _, _, _ := PreparedLegs(db, req, m, p);
    assert Publish(db, req, m, p).transfers[|db.transfers|] == Stored(p.transfer);
  }

  /** A call that returns a transfer, new or replayed, leaves it recorded under its key. */
  lemma ExecuteAnswers(db: Db, req: Request, m: Minted)
    requires Recorded(db) && Execute(db, req, m).outcome.Returned?
    ensures Answered(Execute(db, req, m).db, req, Execute(db, req, m).outcome.transfer)
  {
    hide Prepare;
    if req.RetryKey() in db.records {
      FoundIsThere(db.transfers, db.records[req.RetryKey()].transferId);
    } else {
      PublishAnswers(db, req, m, Prepare(db, req, m).value);
    }
  }

  /** Only its own step ends a call, and then as if it had run alone. */
  lemma EndedByItself(s: State, e: Event, s': State, id: Uuid)
    requires Inv(s) && Next(s, e, s') && id in s'.calls && s'.calls[id].phase.Finished?
    requires !(id in s.calls && s.calls[id].phase.Finished?)
    ensures id in s.calls && s.calls[id].Open()
    ensures s.calls[id].request == s'.calls[id].request && s.calls[id].minted == s'.calls[id].minted
    ensures Execute(s.db, s'.calls[id].request, s'.calls[id].minted) == Executed(s'.db, s'.calls[id].phase.outcome)
  {
    hide Execute, Act;
    assert e == Advance(id);
    Step(s.db, id, s.calls[id]);
  }

  /** The step at which a call ended: it was then open, the books were sound, and it ended as if alone. */
  lemma {:induction false} CompletionPoint(run: seq<State>, i: nat, id: Uuid) returns (k: nat)
    requires IsRun(run) && i < |run| && id in run[i].calls && run[i].calls[id].phase.Finished?
    ensures k < i && id in run[k].calls && run[k].calls[id].Open()
    ensures id in run[k + 1].calls && run[k + 1].calls[id] == run[i].calls[id]
    ensures run[k].calls[id].request == run[i].calls[id].request && run[k].calls[id].minted == run[i].calls[id].minted
    ensures Execute(run[k].db, run[i].calls[id].request, run[i].calls[id].minted)
         == Executed(run[k + 1].db, run[i].calls[id].phase.outcome)
    ensures Sound(run[k].db)
  {
    hide Sound, Execute, Next, Inv;
    assert Follows(run[i - 1], run[i]);
    var e :| Next(run[i - 1], e, run[i]);
    if id in run[i - 1].calls && run[i - 1].calls[id].phase.Finished? {
      HistoryGrows(run, i - 1, i);
      k := CompletionPoint(run, i - 1, id);
    } else {
      k := i - 1;
      BooksHold(run, k);
      RunKeepsInv(run, k);
      EndedByItself(run[k], e, run[i], id);
    }
  }

  lemma TurnKeepsAnswered(db: Db, change: Change, db': Db, req: Request, t: Transfer)
    requires Changes(db, change, db') && Answered(db, req, t)
    ensures Answered(db', req, t)
  {
  }

  lemma {:induction false} AnsweredStays(run: seq<State>, i: nat, j: nat, req: Request, t: Transfer)
    requires IsRun(run) && i <= j < |run| && Answered(run[i].db, req, t)
    ensures Answered(run[j].db, req, t)
  {
    hide Sound, Answered, Inv;
    if i < j {
      AnsweredStays(run, i, j - 1, req, t);
      BooksHold(run, j - 1);
      RunKeepsInv(run, j - 1);
      assert Follows(run[j - 1], run[j]);
      var e :| Next(run[j - 1], e, run[j]);
      var change := NextTurns(run[j - 1], e, run[j]);
      TurnKeepsAnswered(run[j - 1].db, change, run[j].db, req, t);
    }
  }

  /** Every transfer ever returned to a caller is still what its key is recorded with. */
  lemma ReturnedIsRecorded(run: seq<State>, i: nat, id: Uuid)
    requires IsRun(run) && i < |run|
    requires id in run[i].calls && run[i].calls[id].phase.Finished? && run[i].calls[id].phase.outcome.Returned?
    ensures Answered(run[i].db, run[i].calls[id].request, run[i].calls[id].phase.outcome.transfer)
  {
    hide Answered, Execute;
    var k := CompletionPoint(run, i, id);
    var call := run[i].calls[id];
    ExecuteAnswers(run[k].db, call.request, call.minted);
    AnsweredStays(run, k + 1, i, call.request, call.phase.outcome.transfer);
  }

  /** However often a key is retried, at most one transfer is posted, and every success returns that one. */
  lemma RetriesAgree(run: seq<State>, i: nat, id1: Uuid, id2: Uuid)
    requires IsRun(run) && i < |run| && id1 in run[i].calls && id2 in run[i].calls
    requires
      var c1, c2 := run[i].calls[id1], run[i].calls[id2];
      && c1.phase.Finished? && c1.phase.outcome.Returned? && c2.phase.Finished? && c2.phase.outcome.Returned?
      && c1.request.MovesMoney() && c2.request.MovesMoney() && c1.request.RetryKey() == c2.request.RetryKey()
    ensures Stored(run[i].calls[id1].phase.outcome.transfer) == Stored(run[i].calls[id2].phase.outcome.transfer)
    ensures run[i].calls[id1].request.Canonical() == run[i].calls[id2].request.Canonical()
  {
    hide Request.Canonical;
    ReturnedIsRecorded(run, i, id1);
    ReturnedIsRecorded(run, i, id2);
    BooksHold(run, i);
    UniqueFind(run[i].db.transfers, Stored(run[i].calls[id1].phase.outcome.transfer));
    UniqueFind(run[i].db.transfers, Stored(run[i].calls[id2].phase.outcome.transfer));
  }

  /** At its completion a call that posted returns its own new transfer, and one that replayed returns a stored one. */
  lemma ReturnedHow(run: seq<State>, i: nat, id: Uuid)
    requires IsRun(run) && i < |run| && id in run[i].calls
    requires run[i].calls[id].phase.Finished? && run[i].calls[id].phase.outcome.Returned?
    ensures
      var call := run[i].calls[id];
      call.request.MovesMoney()
      && (if call.phase.outcome.transfer.id == id
          then call.phase.outcome.transfer.requestedBy.Owner? <==> call.request.TransferRequest?
          else call.phase.outcome.transfer.requestedBy.Owner?)
  {
    hide Prepare, Sound, Request.Canonical;
    var k := CompletionPoint(run, i, id);
    RunKeepsInv(run, k);
    var db, call := run[k].db, run[i].calls[id];
    SoundRecords(db);
    assert CallOk(db, id, run[k].calls[id]);
    if call.request.RetryKey() in db.records {
      FoundIsThere(db.transfers, db.records[call.request.RetryKey()].transferId);
    } else {
      var _, _, _ := PreparedLegs(db, call.request, call.minted, Prepare(db, call.request, call.minted).value);
    }
  }

  lemma SoundRecords(db: Db)
    requires Sound(db)
    ensures Recorded(db)
  {
  }

  /**
   * A retry, whatever order it reads the recorded transfer's rows in, succeeds with the value the first call got, up to
   * the order of the legs, if and only if an ordinary transfer was asked for; and with that very value if and only if,
   * besides, the rows come back as written.
   */
  lemma RetryEqualIff(run: seq<State>, i: nat, first: Uuid, retry: Uuid, rows: seq<Entry>)
    requires IsRun(run) && i < |run| && first in run[i].calls && retry in run[i].calls && first != retry
    requires
      var c1, c2 := run[i].calls[first], run[i].calls[retry];
      && c1.phase.Finished? && c1.phase.outcome.Returned? && c2.phase.Finished? && c2.phase.outcome.Returned?
      && c1.request.MovesMoney() && c2.request.MovesMoney() && c1.request.RetryKey() == c2.request.RetryKey()
      && c1.phase.outcome.transfer.id == first
      && QueryOrder(c2.phase.outcome.transfer, rows)
    ensures
      var t, stored := run[i].calls[first].phase.outcome.transfer, run[i].calls[retry].phase.outcome.transfer;
      var read := Reload(TransferToRow(stored), EntriesToRows(rows));
      && stored == Stored(t) && stored in run[i].db.transfers
      && read == Ok(stored.(entries := rows))
      && (read.value.(entries := t.entries) == t <==> run[i].calls[first].request.TransferRequest?)
      && (read == Ok(t) <==> run[i].calls[first].request.TransferRequest? && rows == t.entries)
  {
    hide Request.Canonical, Reload;
    RetriesAgree(run, i, first, retry);
    ReturnedHow(run, i, first);
    ReturnedHow(run, i, retry);
    ReturnedIsRecorded(run, i, retry);
    StoredIsStorable(run, i, run[i].calls[retry].phase.outcome.transfer);
    ReloadsInAnyOrder(run[i].calls[retry].phase.outcome.transfer, rows);
  }

  lemma StoredIsStorable(run: seq<State>, i: nat, t: Transfer)
    requires IsRun(run) && i < |run| && t in run[i].db.transfers
    ensures TwoLegs(t) && Storable(t)
  {
    BooksHold(run, i);
    assert Grounded(run[i].db.accounts, t);
    PostedIsStorable(t);
  }

  /** Whoever has read or locked an account holds its key alone, and no one has committed under it. */
  lemma OnlyHolderActs(run: seq<State>, i: nat, id: Uuid, other: Uuid)
    requires IsRun(run) && i < |run| && id in run[i].calls && other in run[i].calls && id != other
    requires run[i].calls[id].HoldsKey()
    ensures run[i].calls[id].request.MovesMoney()
    ensures run[i].calls[id].request.RetryKey() !in run[i].db.records
    ensures run[i].calls[other].HoldsKey() ==>
      && run[i].calls[other].request.MovesMoney()
      && run[i].calls[other].request.RetryKey() != run[i].calls[id].request.RetryKey()
  {
    RunKeepsInv(run, i);
    assert CallOk(run[i].db, id, run[i].calls[id]) && CallOk(run[i].db, other, run[i].calls[other]);
    assert run[i].calls[id].Owns().Disjoint(run[i].calls[other].Owns());
    if run[i].calls[other].HoldsKey() {
      assert run[i].calls[other].request.RetryKey() in run[i].calls[other].Owns().keys;
    }
  }

  lemma TurnKeepsRecords(db: Db, change: Change, db': Db, k: Key)
    requires Changes(db, change, db') && k in db.records
    ensures k in db'.records && db'.records[k] == db.records[k]
  {
  }

  lemma {:induction false} RecordsStay(run: seq<State>, i: nat, j: nat, k: Key)
    requires IsRun(run) && i <= j < |run| && k in run[i].db.records
    ensures k in run[j].db.records && run[j].db.records[k] == run[i].db.records[k]
  {
    hide Sound, Inv, Changes;
    if i < j {
      RecordsStay(run, i, j - 1, k);
      BooksHold(run, j - 1);
      RunKeepsInv(run, j - 1);
      assert Follows(run[j - 1], run[j]);
      var e :| Next(run[j - 1], e, run[j]);
      var change := NextTurns(run[j - 1], e, run[j]);
      TurnKeepsRecords(run[j - 1].db, change, run[j].db, k);
    }
  }

  lemma ReplayOfRecorded(db: Db, record: Record, hash: string)
    requires Recorded(db) && exists k :: k in db.records && db.records[k] == record
    ensures
      var outcome := Replay(db, record, hash);
      if record.hash != hash then outcome == Failed(IdempotencyConflict)
      else outcome.Returned? && outcome.transfer.id == record.transferId && outcome.transfer in db.transfers
  {
    FoundIsThere(db.transfers, record.transferId);
  }

  /** The loser of an insert race is answered from the winner's record alone, whatever it would have met itself. */
  lemma LoserReplaysWinner(run: seq<State>, i: nat, j: nat, id: Uuid)
    requires IsRun(run) && i <= j < |run| && id in run[i].calls && run[i].calls[id].phase.RaceLost?
    requires id in run[j].calls && run[j].calls[id].phase.Finished?
    ensures run[i].calls[id].request.MovesMoney() && run[i].calls[id].request.RetryKey() in run[i].db.records
    ensures
      var winner := run[i].db.records[run[i].calls[id].request.RetryKey()];
      var outcome := run[j].calls[id].phase.outcome;
      if winner.hash == run[i].calls[id].request.Canonical()
      then outcome.Returned? && outcome.transfer.id == winner.transferId
      else outcome == Failed(IdempotencyConflict)
  {
    hide Prepare, Request.Canonical;
    RunKeepsInv(run, i);
    assert CallOk(run[i].db, id, run[i].calls[id]);
    var k := CompletionPoint(run, j, id);
    if k < i {
      HistoryGrows(run, k + 1, i);
    }
    HistoryGrows(run, i, j);
    var key := run[i].calls[id].request.RetryKey();
    RecordsStay(run, i, k, key);
    ReplayOfRecorded(run[k].db, run[k].db.records[key], run[i].calls[id].request.Canonical());
  }
}
