/** Taking movements back: when a reversal goes through, and what a chain of them comes to. */
module Reversals {
  import opened Accounts
  import opened Books
  import opened Identifiers
  import opened Ledger
  import opened LedgerSteps
  import opened Postings
  import opened Requests
  import opened Results
  import opened Store
  import opened Transfers

  /** The row may be moved: a platform row always, a customer's while ACTIVE. */
  predicate Open(db: Db, a: Uuid) {
    a in db.accounts && (db.accounts[a].kind == UserKind ==> db.accounts[a].status == Active)
  }

  lemma ReadGrounded(db: Db, t: Transfer)
    requires RowsOk(db) && Grounded(db.accounts, t)
    ensures ReadAccount(db.accounts, t.source).Ok? && ReadAccount(db.accounts, t.destination).Ok?
    ensures
      var source, destination :=
        ReadAccount(db.accounts, t.source).value, ReadAccount(db.accounts, t.destination).value;
      && source.id == t.source && destination.id == t.destination && source.Valid() && destination.Valid()
      && source.currency == t.amount.currency == destination.currency
      && (Operable(source) <==> Open(db, t.source))
      && (Operable(destination) <==> Open(db, t.destination))
      && (source.User? || destination.User?)
  {
  }

  /** A reversal posting of a grounded original is refused for a naive clock, a closed leg and nothing else. */
  lemma PostReversalDecides(
    original: Transfer, m: Minted, source: Account, destination: Account, requestedBy: Party, key: string)
    requires source.Valid() && destination.Valid()
    requires source.id == original.destination && destination.id == original.source && source.id != destination.id
    requires original.amount.IsPositive()
    requires source.currency == original.amount.currency == destination.currency
    ensures PostReversal(original, m, source, destination, requestedBy, key).Ok?
       <==> m.at.Aware? && Operable(source) && Operable(destination)
    ensures PostReversal(original, m, source, destination, requestedBy, key).Err? ==>
      PostReversal(original, m, source, destination, requestedBy, key)
      == Err(if m.at.Naive? then NaiveTimestamp else AccountNotOperable)
  {
    ReversalPostsIff(original, m, source, destination, requestedBy, key);
  }

  /**
   * The operator's reversal of an existing transfer under a fresh key posts in full exactly when both customer legs
   * are ACTIVE, whatever the balances, and it is the first; a clock without a timezone is reported ahead of a closed
   * leg, and that ahead of an earlier reversal.
   */
  lemma ReversalGoesThrough(db: Db, req: Request, m: Minted, original: Transfer)
    requires RowsOk(db) && TransfersOk(db) && UniqueIds(db.transfers)
    requires req.RevertRequest? && req.executedBy == ADMIN_PRINCIPAL_ID
    requires req.RetryKey() !in db.records
    requires original in db.transfers && original.id == req.transferId
    ensures
      var outcome := Execute(db, req, m).outcome;
      if m.at.Naive? then outcome == Failed(NaiveTimestamp)
      else if !Open(db, original.source) || !Open(db, original.destination) then outcome == Failed(AccountNotOperable)
      else if Reversed(db.transfers, original.id) then outcome == Failed(TransferAlreadyReversed)
      else outcome.Returned? && Mirrors(outcome.transfer, original) && TwoLegs(outcome.transfer)
  {
    hide PostReversal, CanReverse;
    UniqueFind(db.transfers, original);
    ReadGrounded(db, original);
    var source := ReadAccount(db.accounts, original.destination).value;
    var destination := ReadAccount(db.accounts, original.source).value;
    PostReversalDecides(original, m, source, destination, Principal(req.executedBy), req.key);
    if Prepare(db, req, m).Ok? {
      var _, _, _ := PreparedLegs(db, req, m, Prepare(db, req, m).value);
    }
  }

  lemma SoundParts(db: Db)
    requires Sound(db)
    ensures RowsOk(db) && UniqueIds(db.transfers) && ReversalsOk(db.transfers) && TransfersOk(db)
  {
  }

  // ---- chains

  /** Each transfer in the chain reverses the one before it. */
  ghost predicate Chain(transfers: seq<Transfer>, chain: seq<Transfer>) {
    && chain != []
    && (forall i | 0 <= i < |chain| :: chain[i] in transfers)
    && forall i | 0 < i < |chain| :: chain[i].reverses == Some(chain[i - 1].id)
  }

  /** What a chain did to one account, all told. */
  function ChainEffect(chain: seq<Transfer>, a: Uuid): int {
    if chain == [] then 0
    else ChainEffect(chain[..|chain| - 1], a) + LegSum(chain[|chain| - 1].entries, a)
  }

  lemma LinkMirrors(db: Db, chain: seq<Transfer>, i: nat)
    requires UniqueIds(db.transfers) && ReversalsOk(db.transfers) && Chain(db.transfers, chain)
    requires 0 < i < |chain|
    ensures Mirrors(chain[i], chain[i - 1])
  {
    assert chain[i] in db.transfers && chain[i - 1] in db.transfers;
    var n :| 0 <= n < |db.transfers| && db.transfers[n] == chain[i];
    assert db.transfers[n].reverses == Some(chain[i - 1].id);
    var p :| 0 <= p < n && Mirrors(db.transfers[n], db.transfers[p]);
    var q :| 0 <= q < |db.transfers| && db.transfers[q] == chain[i - 1];
    assert p == q;
  }

  lemma MirroredEffect(t: Transfer, original: Transfer, a: Uuid)
    requires TwoLegs(t) && TwoLegs(original) && Mirrors(t, original)
    ensures LegSum(t.entries, a) == -LegSum(original.entries, a)
  {
    TwoLegsSums(t, a);
    TwoLegsSums(original, a);
  }

  /** Reversals of reversals alternate: an odd link repeats the negation of the first, an even one the first. */
  lemma {:induction false} LinkEffect(db: Db, chain: seq<Transfer>, i: nat, a: Uuid)
    requires Sound(db) && Chain(db.transfers, chain) && i < |chain|
    ensures LegSum(chain[i].entries, a)
         == if i % 2 == 0 then LegSum(chain[0].entries, a) else -LegSum(chain[0].entries, a)
  {
    hide Sound, LegSum, TwoLegs, UniqueIds, ReversalsOk;
    SoundParts(db);
    if i > 0 {
      LinkEffect(db, chain, i - 1, a);
      LinkMirrors(db, chain, i);
      assert Grounded(db.accounts, chain[i]) && Grounded(db.accounts, chain[i - 1]);
      MirroredEffect(chain[i], chain[i - 1], a);
    }
  }

  /** An original and k chained reversals leave every account with the original's effect if k is even, none if odd. */
  lemma {:induction false} ChainCancels(db: Db, chain: seq<Transfer>, a: Uuid)
    requires Sound(db) && Chain(db.transfers, chain)
    ensures ChainEffect(chain, a) == if (|chain| - 1) % 2 == 0 then LegSum(chain[0].entries, a) else 0
  {
    hide Sound, LegSum;
    var n := |chain| - 1;
    LinkEffect(db, chain, n, a);
    if n > 0 {
      ChainCancels(db, chain[..n], a);
    } else {
      assert chain[..0] == [];
    }
  }

  lemma {:induction false} ChainAscends(db: Db, chain: seq<Transfer>, i: nat) returns (position: nat)
    requires UniqueIds(db.transfers) && ReversalsOk(db.transfers) && Chain(db.transfers, chain) && i < |chain|
    ensures i <= position < |db.transfers| && db.transfers[position] == chain[i]
  {
    assert chain[i] in db.transfers;
    position :| 0 <= position < |db.transfers| && db.transfers[position] == chain[i];
    if i > 0 {
      var before := ChainAscends(db, chain, i - 1);
      var p :| 0 <= p < position && Mirrors(db.transfers[position], db.transfers[p]);
      assert p == before;
    }
  }

  /** Links point strictly back in commit order: no chain is longer than the ledger, so none closes on itself. */
  lemma ChainsEnd(db: Db, chain: seq<Transfer>)
    requires Sound(db) && Chain(db.transfers, chain)
    ensures |chain| <= |db.transfers|
  {
    hide Sound;
    SoundParts(db);
    var _ := ChainAscends(db, chain, |chain| - 1);
  }
}
