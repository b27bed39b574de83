/** A posted money movement, its ordered construction guards, and per-currency netting. */
module Transfers {
  import opened Entries
  import opened Identifiers
  import opened Money
  import opened Results

  datatype Transfer = Transfer(
    id: Uuid, source: Uuid, destination: Uuid, amount: Money, requestedBy: Party, key: string,
    occurredAt: Timestamp, entries: seq<Entry>, reverses: Option<Uuid>)

  /** The signed total of one currency over a list of legs. */
  function CurrencySum(entries: seq<Entry>, currency: Currency): int {
    if entries == [] then 0
    else
      var last := entries[|entries| - 1];
      CurrencySum(entries[..|entries| - 1], currency)
      + if last.amount.currency == currency then last.Signed().amount else 0
  }

  /** Every currency that occurs nets to zero. */
  predicate Nets(entries: seq<Entry>) {
    forall e | e in entries :: CurrencySum(entries, e.amount.currency) == 0
  }

  /** The legs describe the movement they belong to. */
  predicate WellShaped(t: Transfer) {
    && |t.entries| >= 2
    && (forall e | e in t.entries :: e.transferId == t.id)
    && (exists e :: e in t.entries && e.accountId == t.source && e.direction == Debit)
    && (exists e :: e in t.entries && e.accountId == t.destination && e.direction == Credit)
  }

  /** The guards of construction, in the order that decides which refusal is raised. */
  function Checked(t: Transfer): Result<Transfer> {
    if !t.amount.IsPositive() then Err(NonPositiveAmount)
    else if t.source == t.destination then Err(SelfTransfer)
    else if !WellShaped(t) then Err(MalformedTransfer)
    else if t.occurredAt.Naive? then Err(NaiveTimestamp)
    else if !Nets(t.entries) then Err(UnbalancedTransfer)
    else Ok(t)
  }

  /** No currency at all is left over when `Nets` holds, not only those that occur. */
  lemma {:induction false} AbsentCurrencySumsToZero(entries: seq<Entry>, currency: Currency)
    requires forall e | e in entries :: e.amount.currency != currency
    ensures CurrencySum(entries, currency) == 0
  {
    if entries != [] {
      AbsentCurrencySumsToZero(entries[..|entries| - 1], currency);
    }
  }

  lemma NetsIffEveryCurrencyZero(entries: seq<Entry>)
    ensures Nets(entries) <==> forall c: Currency :: CurrencySum(entries, c) == 0
  {
    if Nets(entries) {
      forall c: Currency ensures CurrencySum(entries, c) == 0 {
        if e :| e in entries && e.amount.currency == c {
          assert CurrencySum(entries, e.amount.currency) == 0;
        } else {
          AbsentCurrencySumsToZero(entries, c);
        }
      }
    } else {
      var e :| e in entries && CurrencySum(entries, e.amount.currency) != 0;
      var leftOver: Currency := e.amount.currency;
      assert CurrencySum(entries, leftOver) != 0;
    }
  }

  /** The construction guards as the code runs them: scans for the legs, then a totals dictionary. */
  method Construct(t: Transfer) returns (r: Result<Transfer>)
    ensures r == Checked(t)
  {
    if !t.amount.IsPositive() {
      return Err(NonPositiveAmount);
    }
    if t.source == t.destination {
      return Err(SelfTransfer);
    }
    var foreign, debited, credited := ScanLegs(t);
    if |t.entries| < 2 || foreign || !debited || !credited {
      return Err(MalformedTransfer);
    }
    if t.occurredAt.Naive? {
      return Err(NaiveTimestamp);
    }
    var balanced := NetLegs(t.entries);
    return if balanced then Ok(t) else Err(UnbalancedTransfer);
  }

  method ScanLegs(t: Transfer) returns (foreign: bool, debited: bool, credited: bool)
    ensures foreign <==> exists e :: e in t.entries && e.transferId != t.id
    ensures debited <==> exists e :: e in t.entries && e.accountId == t.source && e.direction == Debit
    ensures credited <==> exists e :: e in t.entries && e.accountId == t.destination && e.direction == Credit
  {
    foreign, debited, credited := false, false, false;
    for i := 0 to |t.entries|
      invariant foreign <==> exists e :: e in t.entries[..i] && e.transferId != t.id
      invariant debited <==> exists e :: e in t.entries[..i] && e.accountId == t.source && e.direction == Debit
      invariant credited <==>
        exists e :: e in t.entries[..i] && e.accountId == t.destination && e.direction == Credit
    {
      var e := t.entries[i];
      assert t.entries[..i + 1] == t.entries[..i] + [e];
      foreign := foreign || e.transferId != t.id;
      debited := debited || (e.accountId == t.source && e.direction == Debit);
      credited := credited || (e.accountId == t.destination && e.direction == Credit);
    }
    assert t.entries[..|t.entries|] == t.entries;
  }

  /** The netting loop over a totals dictionary keyed by currency. */
  method NetLegs(entries: seq<Entry>) returns (balanced: bool)
    ensures balanced <==> Nets(entries)
  {
    var totals: map<Currency, Money> := map[];
    for i := 0 to |entries|
      invariant totals.Keys == set e | e in entries[..i] :: e.amount.currency
      invariant forall c | c in totals :: totals[c] == Money(CurrencySum(entries[..i], c), c)
    {
      var e := entries[i];
      assert entries[..i + 1] == entries[..i] + [e];
      assert entries[..i + 1][..i] == entries[..i];
      var currency := e.amount.currency;
      if currency !in totals {
        AbsentCurrencySumsToZero(entries[..i], currency);
      }
      var soFar := if currency in totals then totals[currency] else Money(0, currency);
      var sum := soFar.Add(e.Signed());
      totals := totals[currency := sum.value];
    }
    assert entries[..|entries|] == entries;
    balanced := forall c | c in totals :: totals[c].IsZero();
    if balanced {
      forall e | e in entries ensures CurrencySum(entries, e.amount.currency) == 0 {
        assert totals[e.amount.currency].IsZero();
      }
    }
  }
}
