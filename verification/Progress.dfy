/**
 * No deadlock and no livelock: waiting always leads to a call further along, so some open call can always step, and
 * every step brings its call closer to its end. Any state can be run to completion without aborting anyone.
 */
module Progress {
  import opened Accounts
  import opened Identifiers
  import opened Isolation
  import opened Protocol
  import opened Runs
  import opened Store
  import opened Sums

  /** How far along the order of acquisition a call is: its key, then rows ascending by id, then the slot. */
  datatype Rank = Rank(stage: int, row: int) {
    predicate Below(other: Rank) {
      stage < other.stage || (stage == other.stage && row < other.row)
    }
  }

  function RankOf(call: Call): Rank {
    match call.phase
    case Reserved => Rank(1, 0)
    case OriginalLoaded(_) => Rank(1, 0)
    case SourceRead(_, _) => Rank(1, 0)
    case Locking(_, _, _, _, pending) => if pending == [] then Rank(3, 0) else Rank(2, pending[0])
    case CloseRead => if call.request.CloseRequest? then Rank(2, call.request.accountId) else Rank(0, 0)
    case Inserting(_, _) => Rank(3, 0)
    case Inserted(_, _) => Rank(4, 0)
    case CloseLocked(_) => Rank(4, 0)
    case _ => Rank(0, 0)
  }

  /** Rows are locked in ascending id order, so whatever is pending lies beyond everything held. */
  lemma HeldBelowPending(
    accounts: map<Uuid, AccountRow>, source: Account, destination: Account, held: map<Uuid, UserAccount>,
    pending: seq<Uuid>)
    requires LocksOk(accounts, source, destination, held, pending) && pending != []
    ensures forall id | id in held :: id < pending[0]
  {
    var order := LockOrder(source, destination);
    assert pending[0] == order[|order| - |pending|];
  }

  lemma WaitingClimbs(db: Db, i: Uuid, c: Call, j: Uuid, d: Call)
    requires CallOk(db, i, c) && CallOk(db, j, d) && WaitsFor(c, d)
    ensures RankOf(c).Below(RankOf(d))
  {
    if d.phase.Locking? && d.phase.pending != [] {
      HeldBelowPending(db.accounts, d.phase.source, d.phase.destination, d.phase.held, d.phase.pending);
    }
  }

  /** A chain of calls each waiting for the next. */
  ghost predicate WaitPath(s: State, path: seq<Uuid>)
    requires WellPhasedAll(s)
  {
    && (forall i | 0 <= i < |path| :: path[i] in s.calls)
    && forall i | 0 < i < |path| :: WaitsFor(s.calls[path[i - 1]], s.calls[path[i]])
  }

  lemma {:induction false} RanksClimb(ranks: seq<Rank>)
    requires |ranks| >= 2 && forall i | 0 < i < |ranks| :: ranks[i - 1].Below(ranks[i])
    ensures ranks[0].Below(ranks[|ranks| - 1])
  {
    if |ranks| > 2 {
      RanksClimb(ranks[..|ranks| - 1]);
    }
  }

  lemma PathRanks(s: State, path: seq<Uuid>) returns (ranks: seq<Rank>)
    requires Inv(s) && WaitPath(s, path)
    ensures |ranks| == |path|
    ensures forall k | 0 <= k < |path| :: ranks[k] == RankOf(s.calls[path[k]])
    ensures forall k | 0 < k < |path| :: ranks[k - 1].Below(ranks[k])
  {
    ranks := seq(|path|, k requires 0 <= k < |path| => RankOf(s.calls[path[k]]));
    forall k | 0 < k < |path| ensures ranks[k - 1].Below(ranks[k]) {
      WaitingClimbs(s.db, path[k - 1], s.calls[path[k - 1]], path[k], s.calls[path[k]]);
    }
  }

  /** The wait-for relation has no cycle. */
  lemma NoDeadlock(run: seq<State>, i: nat, path: seq<Uuid>)
    requires IsRun(run) && i < |run| && WellPhasedAll(run[i])
    requires |path| >= 2 && WaitPath(run[i], path)
    ensures path[0] != path[|path| - 1]
  {
    RunKeepsInv(run, i);
    var ranks := PathRanks(run[i], path);
    RanksClimb(ranks);
  }

  lemma {:induction false} HighestRank(calls: map<Uuid, Call>, ids: set<Uuid>) returns (top: Uuid)
    requires ids != {} && ids <= calls.Keys
    ensures top in ids && forall id | id in ids :: !RankOf(calls[top]).Below(RankOf(calls[id]))
    decreases ids
  {
    top :| top in ids;
    if ids != {top} {
      var rest := HighestRank(calls, ids - {top});
      if RankOf(calls[top]).Below(RankOf(calls[rest])) {
        top := rest;
      }
    }
  }

  /** Closed calls hold nothing, so nobody waits for them. */
  lemma ClosedHoldsNothing(c: Call, d: Call)
    requires c.WellPhased() && d.WellPhased() && !d.Open()
    ensures !WaitsFor(c, d)
  {
  }

  /** While any call is open, some open call need not wait. */
  lemma SomeoneCanStep(s: State) returns (id: Uuid)
    requires Inv(s) && exists open :: open in s.calls && s.calls[open].Open()
    ensures Enabled(s, Advance(id))
  {
    var open := set i | i in s.calls && s.calls[i].Open();
    var any :| any in s.calls && s.calls[any].Open();
    assert any in open;
    id := HighestRank(s.calls, open);
    forall other | other in s.calls && other != id ensures !WaitsFor(s.calls[id], s.calls[other]) {
      if WaitsFor(s.calls[id], s.calls[other]) {
        if s.calls[other].Open() {
          WaitingClimbs(s.db, id, s.calls[id], other, s.calls[other]);
        } else {
          ClosedHoldsNothing(s.calls[id], s.calls[other]);
        }
        assert false;
      }
    }
  }

  // ---- every step is progress

  /** A bound on the statements a call still has to run. */
  function StepsLeft(phase: Phase): nat {
    match phase
    case Begun => 12
    case KeyAbsent => 11
    case Reserved => 10
    case OriginalLoaded(_) => 9
    case SourceRead(_, _) => 8
    case Locking(_, _, _, _, pending) => 4 + |pending|
    case Inserting(_, _) => 3
    case Inserted(_, _) => 2
    case RaceLost => 2
    case RecordFound(_) => 1
    case CloseRead => 2
    case CloseLocked(_) => 1
    case Finished(_) => 0
    case Crashed => 0
  }

  lemma StepsDrop(db: Db, call: Call)
    requires call.Open() && call.WellPhased()
    ensures StepsLeft(Act(db, call).phase) < StepsLeft(call.phase)
  {
  }

  function Budget(s: State): map<Uuid, int> {
    map id | id in s.calls :: StepsLeft(s.calls[id].phase)
  }

  ghost predicate AllDone(s: State) {
    forall id | id in s.calls :: !s.calls[id].Open()
  }

  /** One open call that need not wait takes its next step. */
  ghost predicate Grants(s: State, s': State) {
    exists id :: Next(s, Advance(id), s')
  }

  lemma GrantSpends(s: State, s': State)
    requires Grants(s, s')
    ensures 0 <= Total(Budget(s')) < Total(Budget(s))
  {
    var id :| Next(s, Advance(id), s');
    StepsDrop(s.db, s.calls[id]);
    assert Budget(s') == Budget(s)[id := StepsLeft(s'.calls[id].phase)];
    TotalUpdated(Budget(s), id, StepsLeft(s'.calls[id].phase));
    TotalNonNegative(Budget(s'));
  }

  ghost predicate IsSchedule(states: seq<State>) {
    states != [] && forall i | 0 < i < |states| :: Grants(states[i - 1], states[i])
  }

  /** With no one new arriving, any way of scheduling the open calls runs dry within the budget. */
  lemma {:induction false} SchedulesAreFinite(states: seq<State>)
    requires IsSchedule(states)
    ensures |states| - 1 <= Total(Budget(states[0])) - Total(Budget(states[|states| - 1]))
  {
    var n := |states|;
    if n > 1 {
      SchedulesAreFinite(states[..n - 1]);
      GrantSpends(states[n - 2], states[n - 1]);
    }
  }

  lemma ScheduleFrom(s: State, rest: seq<State>)
    requires IsSchedule(rest) && Grants(s, rest[0])
    ensures IsSchedule([s] + rest)
  {
    var states := [s] + rest;
    forall i | 0 < i < |states| ensures Grants(states[i - 1], states[i]) {
      if i > 1 {
        assert Grants(rest[i - 2], rest[i - 1]);
      }
    }
  }

  /** Any state can be run to completion by granting, never aborting. */
  lemma {:induction false} RunsToCompletion(s: State) returns (states: seq<State>)
    requires Inv(s)
    ensures IsSchedule(states) && states[0] == s && AllDone(states[|states| - 1])
    decreases if Total(Budget(s)) > 0 then Total(Budget(s)) else 0
  {
    if AllDone(s) {
      return [s];
    }
    var id := SomeoneCanStep(s);
    var s' := Take(s, Advance(id));
    assert Next(s, Advance(id), s');
    NextKeepsInv(s, Advance(id), s');
    GrantSpends(s, s');
    var rest := RunsToCompletion(s');
    ScheduleFrom(s, rest);
    states := [s] + rest;
  }
}
