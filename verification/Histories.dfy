/**
 * Linearizability: the committed tables of every reachable state, and the outcome of every call that ended, are
 * those of the atomic ledger running the completed work one piece at a time in completion order.
 */
module Histories {
  import opened Accounts
  import opened Identifiers
  import opened Isolation
  import opened Ledger
  import opened Linearization
  import opened Money
  import opened Protocol
  import opened Requests
  import opened Runs
  import opened Store

  function Perform(db: Db, entry: LogEntry): Db {
    match entry
    case CallEntry(request, minted, _) => Execute(db, request, minted).db
    case OpenEntry(id, owner, purpose, currency) => ExecuteOpen(db, id, owner, purpose, currency)
  }

  /** The tables after a history, run one entry at a time. */
  function Replayed(db: Db, log: seq<LogEntry>): Db {
    if log == [] then db else Perform(Replayed(db, log[..|log| - 1]), log[|log| - 1])
  }

  /** Each call got the outcome it would have got running alone in its place. */
  ghost predicate Faithful(db: Db, log: seq<LogEntry>) {
    log != [] ==>
      var front, last := log[..|log| - 1], log[|log| - 1];
      && Faithful(db, front)
      && (last.CallEntry? ==> Execute(Replayed(db, front), last.request, last.minted).outcome == last.outcome)
  }

  /** The history holds exactly the calls that ended, each once. */
  ghost predicate Indexed(s: State) {
    && (forall k | 0 <= k < |s.log| && s.log[k].CallEntry? ::
          var id := s.log[k].minted.transferId;
          id in s.calls && s.calls[id] == Call(s.log[k].request, s.log[k].minted, Finished(s.log[k].outcome)))
    && (forall id | id in s.calls && s.calls[id].phase.Finished? ::
          CallEntry(s.calls[id].request, s.calls[id].minted, s.calls[id].phase.outcome) in s.log)
    && (forall j, k | 0 <= j < k < |s.log| && s.log[j].CallEntry? && s.log[k].CallEntry? ::
          s.log[j].minted.transferId != s.log[k].minted.transferId)
  }

  ghost predicate Sequential(db: Db, s: State) {
    Replayed(db, s.log) == s.db && Faithful(db, s.log) && Indexed(s)
  }

  lemma AppendedHistory(db: Db, log: seq<LogEntry>, entry: LogEntry)
    requires Faithful(db, log)
    requires entry.CallEntry? ==>
      Execute(Replayed(db, log), entry.request, entry.minted).outcome == entry.outcome
    ensures Replayed(db, log + [entry]) == Perform(Replayed(db, log), entry)
    ensures Faithful(db, log + [entry])
  {
    assert (log + [entry])[..|log|] == log;
  }

  lemma IndexedAppended(s: State, s': State, id: Uuid, entry: LogEntry)
    requires Indexed(s) && id in s.calls && s.calls[id].Open() && entry.CallEntry? && entry.minted.transferId == id
    requires s'.log == s.log + [entry]
    requires s'.calls == s.calls[id := Call(entry.request, entry.minted, Finished(entry.outcome))]
    ensures Indexed(s')
  {
    forall other | other in s'.calls && s'.calls[other].phase.Finished?
      ensures CallEntry(s'.calls[other].request, s'.calls[other].minted, s'.calls[other].phase.outcome) in s'.log
    {
      if other == id {
        assert s'.log[|s.log|] == entry;
      }
    }
  }

  lemma AdvanceSequential(db: Db, s: State, id: Uuid)
    requires WellPhasedAll(s) && Enabled(s, Advance(id)) && CallOk(s.db, id, s.calls[id]) && Sequential(db, s)
    ensures Sequential(db, Take(s, Advance(id)))
  {
    hide Act, Execute, Frame, PhaseOk, Replayed;
    var call := s.calls[id];
    Step(s.db, id, call);
    var s' := Take(s, Advance(id));
    var phase := s'.calls[id].phase;
    if phase.Finished? {
      var entry := CallEntry(call.request, call.minted, phase.outcome);
      AppendedHistory(db, s.log, entry);
      IndexedAppended(s, s', id, entry);
    }
  }

  lemma BeginSequential(db: Db, s: State, request: Request, minted: Minted)
    requires Sequential(db, s) && WellPhasedAll(s) && Enabled(s, Begin(request, minted))
    ensures Sequential(db, Take(s, Begin(request, minted)))
  {
    hide Replayed, Faithful;
  }

  lemma CrashSequential(db: Db, s: State, id: Uuid)
    requires Sequential(db, s) && WellPhasedAll(s) && Enabled(s, Crash(id))
    ensures Sequential(db, Take(s, Crash(id)))
  {
    hide Replayed, Faithful;
  }

  lemma OpenSequential(db: Db, s: State, id: Uuid, owner: Uuid, purpose: Purpose, currency: Currency)
    requires Sequential(db, s) && WellPhasedAll(s)
    ensures Sequential(db, Take(s, OpenAccount(id, owner, purpose, currency)))
  {
    hide Replayed, Faithful;
    AppendedHistory(db, s.log, OpenEntry(id, owner, purpose, currency));
  }

  lemma NextSequential(db: Db, s: State, e: Event, s': State)
    requires Inv(s) && Next(s, e, s') && Sequential(db, s)
    ensures Sequential(db, s')
  {
    hide Sequential;
    match e
    case Begin(request, minted) => BeginSequential(db, s, request, minted);
    case Advance(id) => AdvanceSequential(db, s, id);
    case Crash(id) => CrashSequential(db, s, id);
    case OpenAccount(id, owner, purpose, currency) => OpenSequential(db, s, id, owner, purpose, currency);
  }

  lemma StartIsSequential(s: State)
    requires s.calls == map[] && s.log == []
    ensures Sequential(s.db, s)
  {
  }

  /** The refinement: concurrent tables and outcomes are the sequential ones. */
  lemma {:induction false} RunIsSequential(run: seq<State>, i: nat)
    requires IsRun(run) && i < |run|
    ensures Sequential(run[0].db, run[i])
  {
    hide Sequential, Inv;
    if i == 0 {
      StartIsSequential(run[0]);
    } else {
      RunIsSequential(run, i - 1);
      RunKeepsInv(run, i - 1);
      assert Follows(run[i - 1], run[i]);
      var e :| Next(run[i - 1], e, run[i]);
      NextSequential(run[0].db, run[i - 1], e, run[i]);
    }
  }

  /** Histories only grow, and what has ended stays as it ended. */
  lemma {:induction false} HistoryGrows(run: seq<State>, i: nat, j: nat)
    requires IsRun(run) && i <= j < |run|
    ensures run[i].log <= run[j].log
    ensures forall id | id in run[i].calls ::
      && id in run[j].calls
      && run[j].calls[id].request == run[i].calls[id].request
      && (!run[i].calls[id].Open() ==> run[j].calls[id] == run[i].calls[id])
  {
    if i < j {
      HistoryGrows(run, i, j - 1);
      assert Follows(run[j - 1], run[j]);
    }
  }

  /** Real time: a call that had ended before another began stands before it in every later history. */
  lemma EndedBeforeBegun(run: seq<State>, i: nat, j: nat, earlier: Uuid, later: Uuid, p: nat, q: nat)
    requires IsRun(run) && i <= j < |run|
    requires earlier in run[i].calls && run[i].calls[earlier].phase.Finished? && later !in run[i].calls
    requires p < |run[j].log| && run[j].log[p].CallEntry? && run[j].log[p].minted.transferId == earlier
    requires q < |run[j].log| && run[j].log[q].CallEntry? && run[j].log[q].minted.transferId == later
    ensures p < |run[i].log| <= q
  {
    hide Replayed, Faithful;
    RunIsSequential(run, i);
    RunIsSequential(run, j);
    HistoryGrows(run, i, j);
    var call := run[i].calls[earlier];
    RunKeepsInv(run, i);
    assert CallOk(run[i].db, earlier, call);
    var at :| 0 <= at < |run[i].log| && run[i].log[at] == CallEntry(call.request, call.minted, call.phase.outcome);
    assert forall k | 0 <= k < |run[i].log| :: run[j].log[k] == run[i].log[k];
  }

  /** A call that is still going, or crashed, has no transfer in the tables and no entry in the history. */
  lemma UnfinishedLeavesNoTrace(run: seq<State>, i: nat, id: Uuid)
    requires IsRun(run) && i < |run| && id in run[i].calls && !run[i].calls[id].phase.Finished?
    ensures forall t | t in run[i].db.transfers :: t.id != id
    ensures forall k | 0 <= k < |run[i].log| && run[i].log[k].CallEntry? :: run[i].log[k].minted.transferId != id
  {
    RunKeepsInv(run, i);
    RunIsSequential(run, i);
    assert CallOk(run[i].db, id, run[i].calls[id]);
  }
}
