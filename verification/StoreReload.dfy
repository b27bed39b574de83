/** Writing a transfer and its entries to their two tables, and reading them back in whatever order they come. */
module StoreReload {
  import opened Entries
  import opened Identifiers
  import opened Ledger
  import opened LedgerSteps
  import opened Money
  import opened Postings
  import opened Requests
  import opened Results
  import opened Store
  import opened Transfers

  /** One row of `transfers`. */
  datatype TransferRow = TransferRow(
    id: Uuid, source: Uuid, destination: Uuid, amount: int, currency: Currency, requestedBy: Uuid, key: string,
    occurredAt: Timestamp, reverses: Option<Uuid>)

  /** One row of `entries`: no currency of its own. */
  datatype EntryRow = EntryRow(
    id: Uuid, transferId: Uuid, accountId: Uuid, direction: string, amount: int, occurredAt: Timestamp)

  function DirectionText(d: Direction): string {
    if d == Debit then "DEBIT" else "CREDIT"
  }

  function DirectionOf(text: string): Option<Direction> {
    if text == "DEBIT" then Some(Debit) else if text == "CREDIT" then Some(Credit) else None
  }

  function TransferToRow(t: Transfer): TransferRow {
    TransferRow(t.id, t.source, t.destination, t.amount.amount, t.amount.currency, t.requestedBy.value, t.key,
                t.occurredAt, t.reverses)
  }

  function EntryToRow(e: Entry): EntryRow {
    EntryRow(e.id, e.transferId, e.accountId, DirectionText(e.direction), e.amount.amount, e.occurredAt)
  }

  function EntriesToRows(entries: seq<Entry>): seq<EntryRow> {
    seq(|entries|, i requires 0 <= i < |entries| => EntryToRow(entries[i]))
  }

  function EntryFromRow(row: EntryRow, currency: Currency): Result<Entry> {
    match DirectionOf(row.direction)
    case None => Err(MalformedTransfer)
    case Some(d) => MakeEntry(row.id, row.transferId, row.accountId, d, Money(row.amount, currency), row.occurredAt)
  }

  function EntriesFromRows(rows: seq<EntryRow>, currency: Currency): Result<seq<Entry>> {
    if rows == [] then Ok([])
    else
      var front :- EntriesFromRows(rows[..|rows| - 1], currency);
      var last :- EntryFromRow(rows[|rows| - 1], currency);
      Ok(front + [last])
  }

  /** The rebuild: every constructor guard runs again, and the requester comes back as a plain owner id. */
  function Reload(row: TransferRow, rows: seq<EntryRow>): Result<Transfer> {
    var entries :- EntriesFromRows(rows, row.currency);
    Checked(Transfer(row.id, row.source, row.destination, Money(row.amount, row.currency), Owner(row.requestedBy),
                     row.key, row.occurredAt, entries, row.reverses))
  }

  /** A transfer the constructor accepted, whose legs are all in its own currency. */
  predicate Storable(t: Transfer) {
    && Checked(t) == Ok(t)
    && forall e | e in t.entries ::
         e.amount.IsPositive() && e.occurredAt.Aware? && e.amount.currency == t.amount.currency
  }

  lemma PostedIsStorable(t: Transfer)
    requires TwoLegs(t)
    ensures Storable(t)
  {
    TwoLegsNet(t);
  }

  // ---- netting does not depend on the order of the legs

  function Without<T>(s: seq<T>, i: nat): seq<T>
    requires i < |s|
  {
    s[..i] + s[i + 1..]
  }

  lemma {:induction false} CurrencySumWithout(entries: seq<Entry>, i: nat, c: Currency)
    requires i < |entries|
    ensures CurrencySum(entries, c) == CurrencySum(Without(entries, i), c) + CurrencySum([entries[i]], c)
  {
    var n := |entries| - 1;
    assert [entries[i]][..0] == [];
    if i == n {
      assert Without(entries, i) == entries[..n];
    } else {
      CurrencySumWithout(entries[..n], i, c);
      assert Without(entries, i) == Without(entries[..n], i) + [entries[n]];
      assert Without(entries, i)[..n - 1] == Without(entries[..n], i);
    }
  }

  lemma MultisetWithout<T>(s: seq<T>, i: nat)
    requires i < |s|
    ensures multiset(Without(s, i)) == multiset(s) - multiset{s[i]}
  {
    assert s == s[..i] + [s[i]] + s[i + 1..];
  }

  lemma {:induction false} CurrencySumPermuted(xs: seq<Entry>, ys: seq<Entry>, c: Currency)
    requires multiset(xs) == multiset(ys)
    ensures CurrencySum(xs, c) == CurrencySum(ys, c)
    decreases |xs|
  {
    if xs == [] {
      assert |ys| == |multiset(ys)| == 0;
    } else {
      assert xs[0] in multiset(ys);
      var i :| 0 <= i < |ys| && ys[i] == xs[0];
      CurrencySumWithout(xs, 0, c);
      CurrencySumWithout(ys, i, c);
      MultisetWithout(xs, 0);
      MultisetWithout(ys, i);
      CurrencySumPermuted(Without(xs, 0), Without(ys, i), c);
    }
  }

  lemma SameMembers<T>(xs: seq<T>, ys: seq<T>)
    requires multiset(xs) == multiset(ys)
    ensures |xs| == |ys| && forall x :: x in xs <==> x in ys
  {
    assert |xs| == |multiset(xs)| && |ys| == |multiset(ys)|;
    forall x ensures x in xs <==> x in ys {
      assert x in xs <==> x in multiset(xs);
      assert x in ys <==> x in multiset(ys);
    }
  }

  /** The guards accept the legs in any order or in none. */
  lemma CheckedPermuted(t: Transfer, entries: seq<Entry>)
    requires multiset(entries) == multiset(t.entries)
    ensures Checked(t.(entries := entries)).Ok? == Checked(t).Ok?
  {
    SameMembers(entries, t.entries);
    assert WellShaped(t.(entries := entries)) <==> WellShaped(t);
    forall e | e in entries ensures CurrencySum(entries, e.amount.currency) == CurrencySum(t.entries, e.amount.currency)
    {
      CurrencySumPermuted(entries, t.entries, e.amount.currency);
    }
  }

  // ---- the round trip

  lemma EntryRoundTrip(e: Entry)
    requires e.amount.IsPositive() && e.occurredAt.Aware?
    ensures EntryFromRow(EntryToRow(e), e.amount.currency) == Ok(e)
  {
  }

  lemma {:induction false} EntriesRoundTrip(entries: seq<Entry>, currency: Currency)
    requires forall e | e in entries ::
      e.amount.IsPositive() && e.occurredAt.Aware? && e.amount.currency == currency
    ensures EntriesFromRows(EntriesToRows(entries), currency) == Ok(entries)
  {
    if entries != [] {
      var n := |entries| - 1;
      EntriesRoundTrip(entries[..n], currency);
      EntryRoundTrip(entries[n]);
      assert EntriesToRows(entries)[..n] == EntriesToRows(entries[..n]);
      assert entries == entries[..n] + [entries[n]];
    }
  }

  /**
   * However the rows of its entries come back, the transfer reloads: the same legs, the same fields, and of the
   * requester its id.
   */
  lemma ReloadsInAnyOrder(t: Transfer, permuted: seq<Entry>)
    requires Storable(t) && multiset(permuted) == multiset(t.entries)
    ensures Reload(TransferToRow(t), EntriesToRows(permuted)) == Ok(Stored(t).(entries := permuted))
  {
    SameMembers(permuted, t.entries);
    EntriesRoundTrip(permuted, t.amount.currency);
    CheckedPermuted(Stored(t), permuted);
    assert Checked(Stored(t)).Ok?;
  }

  /**
   * `rows` may be what the entries query returns: every leg once, in order of time. Legs of one time may come either
   * way round, and the legs of a posting share theirs.
   */
  ghost predicate QueryOrder(t: Transfer, rows: seq<Entry>) {
    && multiset(rows) == multiset(t.entries)
    && forall i, j | 0 <= i < j < |rows| :: rows[i].occurredAt.micros <= rows[j].occurredAt.micros
  }

  lemma AnyOrderOfTwo(t: Transfer, rows: seq<Entry>)
    requires TwoLegs(t)
    ensures QueryOrder(t, rows) <==> multiset(rows) == multiset(t.entries)
    ensures QueryOrder(t, rows) <==> rows == t.entries || rows == [t.entries[1], t.entries[0]]
  {
    var d, c := t.entries[0], t.entries[1];
    assert t.entries == [d, c] && multiset([d, c]) == multiset([c, d]);
    if multiset(rows) == multiset(t.entries) {
      SameMembers(rows, t.entries);
      assert |multiset(rows)| == 2;
      assert rows == [rows[0], rows[1]];
      assert rows[0] in rows && rows[1] in rows;
    }
  }

  /**
   * However the rows come back the transfer reloads. It equals what was stored exactly when an owner, not the operator,
   * asked for it and the rows come back as written; but for the order of the legs, exactly when an owner did.
   */
  lemma ReloadsEqualIffOwner(t: Transfer, rows: seq<Entry>)
    requires Storable(t) && multiset(rows) == multiset(t.entries)
    ensures
      var r := Reload(TransferToRow(t), EntriesToRows(rows));
      && r.Ok?
      && (r == Ok(t) <==> t.requestedBy.Owner? && rows == t.entries)
      && (r.value.(entries := t.entries) == t <==> t.requestedBy.Owner?)
  {
    hide Reload, Storable, TransferToRow;
    ReloadsInAnyOrder(t, rows);
  }

  /**
   * For everything a call newly posts and every order its rows may be read in: the stored form reloads; it reloads as
   * the value returned, up to the order of its legs, if and only if the request was an ordinary transfer, and as that
   * very value if and only if, besides, the rows come back as written.
   */
  lemma ReturnedReloadsIff(db: Db, req: Request, m: Minted, rows: seq<Entry>)
    requires req.MovesMoney() && req.RetryKey() !in db.records && Execute(db, req, m).outcome.Returned?
    requires QueryOrder(Execute(db, req, m).outcome.transfer, rows)
    ensures
      var t := Execute(db, req, m).outcome.transfer;
      var r := Reload(TransferToRow(t), EntriesToRows(rows));
      && Stored(t) in Execute(db, req, m).db.transfers
      && r == Ok(Stored(t).(entries := rows))
      && (r.value.(entries := t.entries) == t <==> req.TransferRequest?)
      && (r == Ok(t) <==> req.TransferRequest? && rows == t.entries)
  {
    hide Prepare, UpdateAll, Reload, Request.Canonical;
    var p := Prepare(db, req, m).value;
    var _, _, _ := PreparedLegs(db, req, m, p);
    PostedIsStorable(p.transfer);
    ReloadsInAnyOrder(p.transfer, rows);
    ReloadsEqualIffOwner(p.transfer, rows);
    assert (db.transfers + [Stored(p.transfer)])[|db.transfers|] == Stored(p.transfer);
  }

  /** The other order is always open to the query: nothing posted is sure to reload as the value returned. */
  lemma CreditMayComeFirst(db: Db, req: Request, m: Minted)
    requires req.MovesMoney() && req.RetryKey() !in db.records && Execute(db, req, m).outcome.Returned?
    ensures
      var t := Execute(db, req, m).outcome.transfer;
      && |t.entries| == 2 && QueryOrder(t, [t.entries[1], t.entries[0]])
      && Reload(TransferToRow(t), EntriesToRows([t.entries[1], t.entries[0]])).Ok?
      && Reload(TransferToRow(t), EntriesToRows([t.entries[1], t.entries[0]])) != Ok(t)
  {
    hide Prepare, UpdateAll, Reload, Request.Canonical, QueryOrder;
    var p := Prepare(db, req, m).value;
    var _, _, _ := PreparedLegs(db, req, m, p);
    var d, c := p.transfer.entries[0], p.transfer.entries[1];
    AnyOrderOfTwo(p.transfer, [c, d]);
    assert [c, d][0] == c != d == p.transfer.entries[0];
    ReturnedReloadsIff(db, req, m, [c, d]);
  }
}
