/** Whole runs: any number of calls, any interleaving, crashes included, from freshly migrated tables. */
module Runs {
  import opened Accounts
  import opened Identifiers
  import opened Isolation
  import opened Linearization
  import opened Money
  import opened Protocol
  import opened Requests
  import opened Store

  ghost predicate WellPhasedAll(s: State) {
    forall id | id in s.calls :: s.calls[id].WellPhased()
  }

  /** No two calls hold a key, a row or a slot in common. */
  ghost predicate Exclusive(s: State)
    requires WellPhasedAll(s)
  {
    forall i, j | i in s.calls && j in s.calls && i != j :: s.calls[i].Owns().Disjoint(s.calls[j].Owns())
  }

  ghost predicate Inv(s: State) {
    && (forall id | id in s.calls :: CallOk(s.db, id, s.calls[id]))
    && WellPhasedAll(s)
    && Exclusive(s)
  }

  /** The tables as the migrations leave them: only empty, well-formed platform accounts. */
  ghost predicate Migrated(db: Db) {
    && db.transfers == [] && db.records == map[]
    && (forall a | a in db.accounts ::
          var row := db.accounts[a];
          row.kind == SystemKind && row.purpose.Kind() == SystemKind
          && row.balance == 0 && row.status == Active && row.version == 0)
    && (forall a, b | a in db.accounts && b in db.accounts && a != b ::
          (db.accounts[a].owner, db.accounts[a].purpose, db.accounts[a].currency)
          != (db.accounts[b].owner, db.accounts[b].purpose, db.accounts[b].currency))
  }

  ghost predicate Next(s: State, e: Event, s': State) {
    WellPhasedAll(s) && Enabled(s, e) && s' == Take(s, e)
  }

  ghost predicate Follows(s: State, s': State) {
    exists e :: Next(s, e, s')
  }

  ghost predicate IsRun(run: seq<State>) {
    && run != []
    && Migrated(run[0].db) && run[0].calls == map[] && run[0].log == []
    && forall i | 0 < i < |run| :: Follows(run[i - 1], run[i])
  }

  // ---- the invariant holds throughout

  /** What a step newly holds, it had to ask for. */
  lemma OwnsGrow(db: Db, id: Uuid, call: Call)
    requires CallOk(db, id, call) && call.Open()
    ensures call.(phase := Act(db, call).phase).WellPhased()
    ensures
      var after := call.(phase := Act(db, call).phase).Owns();
      && after.keys <= call.Owns().keys + call.Wants().keys
      && after.rows <= call.Owns().rows + call.Wants().rows
      && after.slots <= call.Owns().slots + call.Wants().slots
  {
    Step(db, id, call);
    if call.phase.Locking? && call.phase.pending != [] {
      var _ := GrantActs(db, id, call);
    }
  }

  /** Replacing one call: the others as they were, the new one sound and apart from them. */
  lemma ReplaceKeepsInv(s: State, s': State, id: Uuid, call: Call)
    requires Inv(s) && s'.calls == s.calls[id := call]
    requires CallOk(s'.db, id, call)
    requires forall other | other in s.calls && other != id ::
      CallOk(s'.db, other, s.calls[other]) && s.calls[other].Owns().Disjoint(call.Owns())
    ensures Inv(s')
  {
    forall i, j | i in s'.calls && j in s'.calls && i != j
      ensures s'.calls[i].Owns().Disjoint(s'.calls[j].Owns())
    {
      if i != id && j != id {
        assert s.calls[i].Owns().Disjoint(s.calls[j].Owns());
      }
    }
  }

  lemma AdvanceLeavesOther(s: State, id: Uuid, other: Uuid)
    requires Inv(s) && Enabled(s, Advance(id)) && other in s.calls && other != id
    ensures CallOk(Take(s, Advance(id)).db, other, s.calls[other])
    ensures Take(s, Advance(id)).calls[id].WellPhased()
    ensures s.calls[other].Owns().Disjoint(Take(s, Advance(id)).calls[id].Owns())
  {
    var call, bystander := s.calls[id], s.calls[other];
    Step(s.db, id, call);
    OwnsGrow(s.db, id, call);
    assert !WaitsFor(call, bystander);
    assert bystander.Owns().Disjoint(call.Owns());
    Undisturbed(s.db, Act(s.db, call).db, call.Owns(), id, other, bystander);
  }

  lemma AdvanceKeepsInv(s: State, id: Uuid)
    requires Inv(s) && Enabled(s, Advance(id))
    ensures Inv(Take(s, Advance(id)))
  {
    var s' := Take(s, Advance(id));
    Step(s.db, id, s.calls[id]);
    forall other | other in s.calls && other != id
      ensures CallOk(s'.db, other, s.calls[other])
      ensures s.calls[other].Owns().Disjoint(s'.calls[id].Owns())
    {
      AdvanceLeavesOther(s, id, other);
    }
    ReplaceKeepsInv(s, s', id, s'.calls[id]);
  }

  lemma OpenKeepsInv(s: State, id: Uuid, owner: Uuid, purpose: Purpose, currency: Currency)
    requires Inv(s)
    ensures Inv(Take(s, OpenAccount(id, owner, purpose, currency)))
  {
    var s' := Take(s, OpenAccount(id, owner, purpose, currency));
    forall other | other in s.calls ensures CallOk(s'.db, other, s'.calls[other]) {
      Undisturbed(s.db, s'.db, Resources({}, {}, {}), id, other, s.calls[other]);
    }
  }

  lemma BeginKeepsInv(s: State, request: Request, minted: Minted)
    requires Inv(s) && Enabled(s, Begin(request, minted))
    ensures Inv(Take(s, Begin(request, minted)))
  {
    ReplaceKeepsInv(s, Take(s, Begin(request, minted)), minted.transferId, Call(request, minted, Begun));
  }

  lemma CrashKeepsInv(s: State, id: Uuid)
    requires Inv(s) && Enabled(s, Crash(id))
    ensures Inv(Take(s, Crash(id)))
  {
    var crashed := s.calls[id].(phase := Crashed);
    assert CallOk(s.db, id, crashed);
    ReplaceKeepsInv(s, Take(s, Crash(id)), id, crashed);
  }

  lemma NextKeepsInv(s: State, e: Event, s': State)
    requires Inv(s) && Next(s, e, s')
    ensures Inv(s')
  {
    match e
    case Begin(request, minted) => BeginKeepsInv(s, request, minted);
    case Advance(id) => AdvanceKeepsInv(s, id);
    case Crash(id) => CrashKeepsInv(s, id);
    case OpenAccount(id, owner, purpose, currency) => OpenKeepsInv(s, id, owner, purpose, currency);
  }

  lemma {:induction false} RunKeepsInv(run: seq<State>, i: nat)
    requires IsRun(run) && i < |run|
    ensures Inv(run[i])
  {
    if i > 0 {
      RunKeepsInv(run, i - 1);
      assert Follows(run[i - 1], run[i]);
      var e :| Next(run[i - 1], e, run[i]);
      NextKeepsInv(run[i - 1], e, run[i]);
    }
  }
}
