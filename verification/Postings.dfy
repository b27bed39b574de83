/** Posting a transfer or a reversal: pure, all-or-nothing, two balanced legs. */
module Postings {
  import opened Accounts
  import opened Entries
  import opened Identifiers
  import opened Money
  import opened Results
  import opened Transfers

  /** A posted transfer and the successors of its USER legs; a SYSTEM leg has no balance to advance. */
  datatype Posting = Posting(transfer: Transfer, accounts: seq<UserAccount>)

  function PostTransfer(
    m: Minted, source: Account, destination: Account, amount: Money, requestedBy: Party, key: string)
    : Result<Posting>
  {
    if source.id == destination.id then Err(SelfTransfer)
    else if source.currency != destination.currency || source.currency != amount.currency then Err(CurrencyMismatch)
    else
      var debitLeg :- MakeEntry(m.debitId, m.transferId, source.id, Debit, amount, m.at);
      var creditLeg :- MakeEntry(m.creditId, m.transferId, destination.id, Credit, amount, m.at);
      var debited :- if source.User? then Single(ApplyDebit(source, debitLeg)) else Ok([]);
      var credited :- if destination.User? then Single(ApplyCredit(destination, creditLeg)) else Ok([]);
      var posted :- Checked(Transfer(
        m.transferId, source.id, destination.id, amount, requestedBy, key, m.at, [debitLeg, creditLeg], None));
      Ok(Posting(posted, debited + credited))
  }

  /** The amount and both legs come from `original`; the reversal debits its destination. */
  function PostReversal(
    original: Transfer, m: Minted, source: Account, destination: Account, requestedBy: Party, key: string)
    : Result<Posting>
  {
    if source.id != original.destination || destination.id != original.source then Err(ReversalMismatch)
    else
      var amount := original.amount;
      var debitLeg :- MakeEntry(m.debitId, m.transferId, source.id, Debit, amount, m.at);
      var creditLeg :- MakeEntry(m.creditId, m.transferId, destination.id, Credit, amount, m.at);
      var debited :- if source.User? then Single(ApplyDebitForReversal(source, debitLeg)) else Ok([]);
      var credited :- if destination.User? then Single(ApplyCredit(destination, creditLeg)) else Ok([]);
      var reversal :- Checked(Transfer(
        m.transferId, source.id, destination.id, amount, requestedBy, key, m.at, [debitLeg, creditLeg],
        Some(original.id)));
      Ok(Posting(reversal, debited + credited))
  }

  function Single(r: Result<UserAccount>): Result<seq<UserAccount>> {
    var a :- r;
    Ok([a])
  }

  // ---- what a posting amounts to

  /** Exactly one debit of the source and one credit of the destination, both of the full amount. */
  predicate TwoLegs(t: Transfer) {
    && t.amount.IsPositive()
    && t.source != t.destination
    && t.occurredAt.Aware?
    && |t.entries| == 2
    && t.entries[0] == Entry(t.entries[0].id, t.id, t.source, Debit, t.amount, t.occurredAt)
    && t.entries[1] == Entry(t.entries[1].id, t.id, t.destination, Credit, t.amount, t.occurredAt)
  }

  /** What a USER account becomes when its balance moves by `delta`. */
  function Advanced(a: UserAccount, delta: int): UserAccount {
    a.(balance := Money(a.balance.amount + delta, a.balance.currency), version := a.version + 1)
  }

  function Successors(source: Account, destination: Account, amount: int): seq<UserAccount> {
    (if source.User? then [Advanced(source, -amount)] else [])
    + (if destination.User? then [Advanced(destination, amount)] else [])
  }

  predicate Operable(a: Account) { a.User? ==> a.status == Active }

  /** When an ordinary transfer goes through, in terms a caller can check beforehand. */
  predicate CanTransfer(source: Account, destination: Account, amount: Money, at: Timestamp) {
    && source.id != destination.id
    && source.currency == destination.currency == amount.currency
    && amount.IsPositive()
    && at.Aware?
    && Operable(source) && Operable(destination)
    && (source.User? ==> source.balance.amount >= amount.amount)
  }

  /** When a reversal goes through: funds are never asked for. */
  predicate CanReverse(original: Transfer, source: Account, destination: Account, at: Timestamp) {
    && source.id == original.destination && destination.id == original.source
    && source.id != destination.id
    && original.amount.IsPositive()
    && at.Aware?
    && Operable(source) && Operable(destination)
    && (source.User? ==> source.currency == original.amount.currency)
    && (destination.User? ==> destination.currency == original.amount.currency)
  }

  lemma TwoLegsNet(t: Transfer)
    requires TwoLegs(t)
    ensures Checked(t) == Ok(t)
  {
    var d, c := t.entries[0], t.entries[1];
    assert t.entries == [d, c];
    assert d in t.entries && c in t.entries;
    assert [d, c][..1] == [d] && [d][..0] == [];
    assert CurrencySum([d], t.amount.currency) == -t.amount.amount;
    assert CurrencySum(t.entries, t.amount.currency) == 0;
  }

  /** An ordinary posting succeeds exactly when `CanTransfer`, and then is the two legs in full. */
  lemma TransferPostsIff(
    m: Minted, source: Account, destination: Account, amount: Money, requestedBy: Party, key: string)
    requires source.Valid() && destination.Valid()
    ensures PostTransfer(m, source, destination, amount, requestedBy, key).Ok?
       <==> CanTransfer(source, destination, amount, m.at)
    ensures CanTransfer(source, destination, amount, m.at) ==>
      var p := PostTransfer(m, source, destination, amount, requestedBy, key).value;
      && TwoLegs(p.transfer)
      && p.transfer.entries[0].id == m.debitId && p.transfer.entries[1].id == m.creditId
      && p.transfer == Transfer(m.transferId, source.id, destination.id, amount, requestedBy, key, m.at,
                                p.transfer.entries, None)
      && p.accounts == Successors(source, destination, amount.amount)
  {
    if CanTransfer(source, destination, amount, m.at) {
      var d := Entry(m.debitId, m.transferId, source.id, Debit, amount, m.at);
      var c := Entry(m.creditId, m.transferId, destination.id, Credit, amount, m.at);
      TwoLegsNet(Transfer(m.transferId, source.id, destination.id, amount, requestedBy, key, m.at, [d, c], None));
    }
  }

  /** A reversal succeeds exactly when `CanReverse`, in full, mirroring its original. */
  lemma ReversalPostsIff(
    original: Transfer, m: Minted, source: Account, destination: Account, requestedBy: Party, key: string)
    requires source.Valid() && destination.Valid()
    ensures PostReversal(original, m, source, destination, requestedBy, key).Ok?
       <==> CanReverse(original, source, destination, m.at)
    ensures CanReverse(original, source, destination, m.at) ==>
      var p := PostReversal(original, m, source, destination, requestedBy, key).value;
      && TwoLegs(p.transfer)
      && p.transfer.entries[0].id == m.debitId && p.transfer.entries[1].id == m.creditId
      && p.transfer == Transfer(m.transferId, source.id, destination.id, original.amount, requestedBy, key, m.at,
                                p.transfer.entries, Some(original.id))
      && p.accounts == Successors(source, destination, original.amount.amount)
  {
    if CanReverse(original, source, destination, m.at) {
      var d := Entry(m.debitId, m.transferId, source.id, Debit, original.amount, m.at);
      var c := Entry(m.creditId, m.transferId, destination.id, Credit, original.amount, m.at);
      TwoLegsNet(Transfer(m.transferId, source.id, destination.id, original.amount, requestedBy, key, m.at, [d, c],
                          Some(original.id)));
    }
  }
}
