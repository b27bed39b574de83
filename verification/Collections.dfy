/** Who owes the platform, how much in each currency, and for how long. */
module Collections {
  import opened Accounts
  import opened Books
  import opened Identifiers
  import opened Instants
  import opened Money
  import opened NegativeEpisodes
  import opened Results
  import opened Sorting
  import opened Store

  /** One customer account in debt; no start when its entries do not explain the balance. */
  datatype NegativeAccount = NegativeAccount(accountId: Uuid, owner: Uuid, balance: Money, since: Option<int>)

  datatype Exposure = Exposure(currency: Currency, count: int, totalOwed: Money)

  datatype Bucket = UnderOneDay | OneToSevenDays | SevenToThirtyDays | OverThirtyDays

  datatype Report = Report(
    asOf: int, accounts: seq<NegativeAccount>, exposures: seq<Exposure>, ageBuckets: map<Bucket, int>)
  {
    function UnexplainedCount(): int { SumOf(accounts, Unexplained) }

    function OldestNegativeSince(): Option<int> {
      var known := Known(accounts);
      if known == [] then None else Some(Min(known))
    }
  }

  /** The earliest instant the clock's type can hold; it only ever meets itself. */
  const UNEXPLAINED_SORT_FLOOR := -EPOCH_DAYS * DAY

  /** Ascending; the last bucket has no ceiling. */
  const BUCKET_CEILINGS: seq<(Bucket, Option<int>)> :=
    [(UnderOneDay, Some(DAY)), (OneToSevenDays, Some(7 * DAY)), (SevenToThirtyDays, Some(30 * DAY)),
     (OverThirtyDays, None)]

  // ---- adding up a list

  function SumOf<T>(s: seq<T>, f: T -> int): int {
    if s == [] then 0 else SumOf(s[..|s| - 1], f) + f(s[|s| - 1])
  }

  function Unexplained(row: NegativeAccount): int { if row.since.None? then 1 else 0 }

  function InCurrency(c: Currency): NegativeAccount -> int {
    (row: NegativeAccount) => if row.balance.currency == c then 1 else 0
  }

  function Owed(c: Currency): NegativeAccount -> int {
    (row: NegativeAccount) => if row.balance.currency == c then -row.balance.amount else 0
  }

  /** The half-open range of ages a bucket stands for. */
  predicate InRange(b: Bucket, age: int) {
    match b
    case UnderOneDay => age < DAY
    case OneToSevenDays => DAY <= age < 7 * DAY
    case SevenToThirtyDays => 7 * DAY <= age < 30 * DAY
    case OverThirtyDays => 30 * DAY <= age
  }

  function AgedIn(b: Bucket, asOf: int): NegativeAccount -> int {
    (row: NegativeAccount) => if row.since.Some? && InRange(b, asOf - row.since.value) then 1 else 0
  }

  function Known(rows: seq<NegativeAccount>): seq<int> {
    if rows == [] then []
    else
      Known(rows[..|rows| - 1])
      + match rows[|rows| - 1].since case None => [] case Some(at) => [at]
  }

  function Min(s: seq<int>): int
    requires s != []
  {
    if |s| == 1 then s[0]
    else
      var m := Min(s[..|s| - 1]);
      if s[|s| - 1] < m then s[|s| - 1] else m
  }

  lemma {:induction false} SumOfMultiset<T>(s: seq<T>, t: seq<T>, f: T -> int)
    requires multiset(s) == multiset(t)
    ensures SumOf(s, f) == SumOf(t, f)
    decreases |s|
  {
    if s == [] {
      assert |multiset(t)| == 0;
    } else {
      var last := s[|s| - 1];
      assert s == s[..|s| - 1] + [last];
      assert last in multiset(t);
      var k :| 0 <= k < |t| && t[k] == last;
      var without := t[..k] + t[k + 1..];
      assert t == t[..k] + [t[k]] + t[k + 1..];
      assert multiset(without) == multiset(t) - multiset{last};
      SumOfMultiset(s[..|s| - 1], without, f);
      SumOfSplit(t, k, f);
    }
  }

  /** Any one element may be taken out first. */
  lemma {:induction false} SumOfSplit<T>(t: seq<T>, k: nat, f: T -> int)
    requires k < |t|
    ensures SumOf(t, f) == SumOf(t[..k] + t[k + 1..], f) + f(t[k])
  {
    var n := |t| - 1;
    if k == n {
      assert t[..k] + t[k + 1..] == t[..n];
    } else {
      SumOfSplit(t[..n], k, f);
      var without := t[..k] + t[k + 1..];
      assert without[..n - 1] == t[..n][..k] + t[..n][k + 1..];
      assert without[n - 1] == t[n];
    }
  }

  // ---- the order of the rows

  function SortKey(row: NegativeAccount): (int, int) {
    match row.since
    case None => (0, UNEXPLAINED_SORT_FLOOR)
    case Some(at) => (1, at)
  }

  predicate Sooner(a: NegativeAccount, b: NegativeAccount) {
    var (x, y) := (SortKey(a), SortKey(b));
    x.0 < y.0 || (x.0 == y.0 && x.1 < y.1)
  }

  function Ordered(rows: seq<NegativeAccount>): seq<NegativeAccount> {
    InOrder(rows, Sooner)
  }

  lemma SoonerRanks()
    ensures Ranks(Sooner)
  {
    forall x, y | Sooner(x, y) ensures !Sooner(y, x) {
    }
    forall x, y, z | !Sooner(y, x) && !Sooner(z, y) ensures !Sooner(z, x) {
    }
  }

  lemma {:induction false} MinIsLeast(s: seq<int>)
    requires s != []
    ensures Min(s) in s && forall x | x in s :: Min(s) <= x
  {
    if |s| > 1 {
      MinIsLeast(s[..|s| - 1]);
      assert s == s[..|s| - 1] + [s[|s| - 1]];
    }
  }

  /** In rows that ascend, the unexplained come first, exactly as many as are counted. */
  lemma {:induction false} UnexplainedFirst(rows: seq<NegativeAccount>)
    requires Ascends(rows, Sooner)
    ensures 0 <= SumOf(rows, Unexplained) <= |rows|
    ensures forall i | 0 <= i < |rows| :: rows[i].since.None? <==> i < SumOf(rows, Unexplained)
  {
    if rows != [] {
      var n := |rows| - 1;
      UnexplainedFirst(rows[..n]);
      forall i | 0 <= i < n ensures rows[i].since.None? <==> i < SumOf(rows[..n], Unexplained) {
        assert rows[..n][i] == rows[i];
      }
      assert n > 0 ==> !Sooner(rows[n], rows[n - 1]);
    }
  }

  lemma {:induction false} KnownAreTheRest(rows: seq<NegativeAccount>, unexplained: nat)
    requires unexplained <= |rows|
    requires forall i | 0 <= i < |rows| :: rows[i].since.None? <==> i < unexplained
    ensures |Known(rows)| == |rows| - unexplained
    ensures forall i | 0 <= i < |Known(rows)| :: rows[unexplained + i].since == Some(Known(rows)[i])
  {
    if rows != [] {
      var n := |rows| - 1;
      var front := rows[..n];
      KnownAreTheRest(front, if unexplained <= n then unexplained else n);
      hide Known;
      KnownOneMore(front, rows[n]);
      assert rows == front + [rows[n]];
      forall i | 0 <= i < |Known(rows)| ensures rows[unexplained + i].since == Some(Known(rows)[i]) {
        assert i < |Known(front)| ==> front[unexplained + i] == rows[unexplained + i];
      }
    }
  }

  lemma KnownOneMore(rows: seq<NegativeAccount>, row: NegativeAccount)
    ensures Known(rows + [row]) == Known(rows) + (if row.since.Some? then [row.since.value] else [])
  {
    assert (rows + [row])[..|rows|] == rows;
  }

  /** In rows that ascend, the least known start is that of the first row that has one. */
  lemma FirstKnownIsLeast(rows: seq<NegativeAccount>, unexplained: nat)
    requires Ascends(rows, Sooner) && unexplained < |rows|
    requires forall i | 0 <= i < |rows| :: rows[i].since.None? <==> i < unexplained
    ensures Known(rows) != [] && Some(Min(Known(rows))) == rows[unexplained].since
  {
    hide Known, Min;
    KnownAreTheRest(rows, unexplained);
    var known := Known(rows);
    MinIsLeast(known);
    var k :| 0 <= k < |known| && known[k] == Min(known);
    assert known[0] in known;
    assert k > 0 ==> !Sooner(rows[unexplained + k], rows[unexplained]);
  }

  /**
   * The rows are those the query returned, each once; the unexplained first, then the rest by start, oldest first, and
   * rows with one start as the query returned them. The oldest start reported is that of the first explained row.
   */
  lemma OrderedRows(rows: seq<NegativeAccount>, report: Report)
    requires report.accounts == Ordered(rows)
    ensures
      var unexplained := report.UnexplainedCount();
      && multiset(report.accounts) == multiset(rows) && |report.accounts| == |rows|
      && unexplained == SumOf(rows, Unexplained) && 0 <= unexplained <= |rows|
      && (forall i | 0 <= i < |rows| :: report.accounts[i].since.None? <==> i < unexplained)
      && (forall i, j | unexplained <= i < j < |rows| ::
            report.accounts[i].since.value <= report.accounts[j].since.value)
      && (forall x :: Tied(report.accounts, x, Sooner) == Tied(rows, x, Sooner))
      && report.OldestNegativeSince() == if unexplained == |rows| then None else report.accounts[unexplained].since
  {
    hide InOrder, Tied, Known, Min, SumOf;
    SoonerRanks();
    InOrderSorts(rows, Sooner);
    InOrderMembers(rows, Sooner);
    SumOfMultiset(report.accounts, rows, Unexplained);
    UnexplainedFirst(report.accounts);
    var unexplained := report.UnexplainedCount();
    forall i, j | unexplained <= i < j < |rows|
      ensures report.accounts[i].since.value <= report.accounts[j].since.value
    {
      assert !Sooner(report.accounts[j], report.accounts[i]);
    }
    KnownAreTheRest(report.accounts, unexplained);
    if unexplained < |rows| {
      FirstKnownIsLeast(report.accounts, unexplained);
    }
  }

  // ---- exposure by currency

  /** Character by character, a prefix first. */
  predicate Lexical(a: string, b: string) {
    b != "" && (a == "" || a[0] < b[0] || (a[0] == b[0] && Lexical(a[1..], b[1..])))
  }

  predicate CodeBefore(a: Currency, b: Currency) { Lexical(a, b) }

  lemma {:induction false} LexicalOrders(a: string, b: string)
    ensures Lexical(a, b) ==> !Lexical(b, a)
    ensures !Lexical(a, b) && !Lexical(b, a) ==> a == b
  {
    if a != "" && b != "" {
      LexicalOrders(a[1..], b[1..]);
      assert a == [a[0]] + a[1..] && b == [b[0]] + b[1..];
    }
  }

  lemma {:induction false} LexicalChains(a: string, b: string, c: string)
    requires Lexical(a, b) && Lexical(b, c)
    ensures Lexical(a, c)
  {
    if a != "" && a[0] == b[0] == c[0] {
      LexicalChains(a[1..], b[1..], c[1..]);
    }
  }

  lemma CodesRank()
    ensures Ranks(CodeBefore)
  {
    forall x: Currency, y: Currency | CodeBefore(x, y) ensures !CodeBefore(y, x) {
      LexicalOrders(x, y);
    }
    forall x: Currency, y: Currency, z: Currency | !CodeBefore(y, x) && !CodeBefore(z, y)
      ensures !CodeBefore(z, x)
    {
      LexicalOrders(x, y);
      LexicalOrders(y, z);
      LexicalOrders(x, z);
      if Lexical(x, y) && Lexical(y, z) {
        LexicalChains(x, y, z);
      }
    }
  }

  /** One line per currency that occurs, by code, with its rows counted and what they owe added up. */
  ghost predicate ExposuresOf(exposures: seq<Exposure>, rows: seq<NegativeAccount>) {
    && (forall i, j | 0 <= i < j < |exposures| :: CodeBefore(exposures[i].currency, exposures[j].currency))
    && (forall row | row in rows :: exists e :: e in exposures && e.currency == row.balance.currency)
    && (forall e | e in exposures ::
          && (exists row :: row in rows && row.balance.currency == e.currency)
          && e.count == SumOf(rows, InCurrency(e.currency))
          && e.totalOwed == Money(SumOf(rows, Owed(e.currency)), e.currency))
  }

  /** Sorting the dictionary's keys loses none and, as keys differ, leaves no two level. */
  lemma SortedCodes(codes: seq<Currency>)
    requires Distinct(codes)
    ensures
      var sorted := InOrder(codes, CodeBefore);
      && (forall c :: c in sorted <==> c in codes)
      && forall i, j | 0 <= i < j < |sorted| :: CodeBefore(sorted[i], sorted[j])
  {
    var sorted := InOrder(codes, CodeBefore);
    CodesRank();
    InOrderSorts(codes, CodeBefore);
    InOrderMembers(codes, CodeBefore);
    DistinctPart(codes, sorted);
    forall i, j | 0 <= i < j < |sorted| ensures CodeBefore(sorted[i], sorted[j]) {
      LexicalOrders(sorted[i], sorted[j]);
    }
  }

  /** What the two dictionaries hold after the rows so far; `keys` is their insertion order. */
  ghost predicate Tallied(
    rows: seq<NegativeAccount>, keys: seq<Currency>, counts: map<Currency, int>, totals: map<Currency, Money>)
  {
    && Distinct(keys) && Occur(rows, keys)
    && KeyedBy(keys, counts) && Counted(rows, counts)
    && KeyedBy(keys, totals) && Totalled(rows, totals)
  }

  ghost predicate Counted(rows: seq<NegativeAccount>, counts: map<Currency, int>) {
    forall c | c in counts :: counts[c] == SumOf(rows, InCurrency(c))
  }

  ghost predicate Totalled(rows: seq<NegativeAccount>, totals: map<Currency, Money>) {
    forall c | c in totals :: totals[c] == Money(SumOf(rows, Owed(c)), c)
  }

  ghost predicate KeyedBy<V>(keys: seq<Currency>, m: map<Currency, V>) {
    forall c: Currency :: c in keys <==> c in m
  }

  /** Exactly the currencies that occur. */
  ghost predicate Occur(rows: seq<NegativeAccount>, keys: seq<Currency>) {
    && (forall row | row in rows :: row.balance.currency in keys)
    && (forall c | c in keys :: exists row :: row in rows && row.balance.currency == c)
  }

  lemma OccurOneMore(rows: seq<NegativeAccount>, row: NegativeAccount, keys: seq<Currency>)
    requires Occur(rows, keys) && Distinct(keys)
    ensures
      var more := if row.balance.currency in keys then keys else keys + [row.balance.currency];
      Occur(rows + [row], more) && Distinct(more)
  {
    assert row in rows + [row];
    forall d | d in keys ensures exists r :: r in rows + [row] && r.balance.currency == d {
      var r :| r in rows && r.balance.currency == d;
      assert r in rows + [row];
    }
  }

  lemma AbsentCurrency(rows: seq<NegativeAccount>, keys: seq<Currency>, c: Currency)
    requires Occur(rows, keys) && c !in keys
    ensures SumOf(rows, InCurrency(c)) == 0 && SumOf(rows, Owed(c)) == 0
  {
    AbsentSumsToZero(rows, c);
  }

  lemma {:induction false} AbsentSumsToZero(rows: seq<NegativeAccount>, c: Currency)
    requires forall row | row in rows :: row.balance.currency != c
    ensures SumOf(rows, InCurrency(c)) == 0 && SumOf(rows, Owed(c)) == 0
  {
    if rows != [] {
      AbsentSumsToZero(rows[..|rows| - 1], c);
    }
  }

  lemma TallyOne(
    rows: seq<NegativeAccount>, row: NegativeAccount, keys: seq<Currency>,
    counts: map<Currency, int>, totals: map<Currency, Money>)
    requires Tallied(rows, keys, counts, totals)
    ensures
      var c := row.balance.currency;
      Tallied(rows + [row],
              if c in totals then keys else keys + [c],
              counts[c := (if c in counts then counts[c] else 0) + 1],
              totals[c := Money((if c in totals then totals[c].amount else 0) - row.balance.amount, c)])
  {
    hide Occur, Distinct, Counted, Totalled;
    assert row.balance.currency in keys <==> row.balance.currency in totals;
    OccurOneMore(rows, row, keys);
    CountsOneMore(rows, row, keys, counts);
    TotalsOneMore(rows, row, keys, totals);
  }

  lemma CountsOneMore(
    rows: seq<NegativeAccount>, row: NegativeAccount, keys: seq<Currency>, counts: map<Currency, int>)
    requires Occur(rows, keys) && KeyedBy(keys, counts) && Counted(rows, counts)
    ensures
      var c := row.balance.currency;
      Counted(rows + [row], counts[c := (if c in counts then counts[c] else 0) + 1])
  {
    hide SumOf, InCurrency, Occur;
    var c := row.balance.currency;
    if c !in keys {
      AbsentCurrency(rows, keys, c);
    }
    forall d | d in counts || d == c
      ensures SumOf(rows + [row], InCurrency(d)) == SumOf(rows, InCurrency(d)) + if c == d then 1 else 0
    {
      CurrencyOneMore(rows, row, d);
    }
  }

  lemma TotalsOneMore(
    rows: seq<NegativeAccount>, row: NegativeAccount, keys: seq<Currency>, totals: map<Currency, Money>)
    requires Occur(rows, keys) && KeyedBy(keys, totals) && Totalled(rows, totals)
    ensures
      var c := row.balance.currency;
      Totalled(rows + [row], totals[c := Money((if c in totals then totals[c].amount else 0) - row.balance.amount, c)])
  {
    hide SumOf, Owed, Occur;
    var c := row.balance.currency;
    if c !in keys {
      AbsentCurrency(rows, keys, c);
    }
    forall d | d in totals || d == c
      ensures SumOf(rows + [row], Owed(d)) == SumOf(rows, Owed(d)) - if c == d then row.balance.amount else 0
    {
      CurrencyOneMore(rows, row, d);
    }
  }

  lemma CurrencyOneMore(rows: seq<NegativeAccount>, row: NegativeAccount, d: Currency)
    ensures
      var here := row.balance.currency == d;
      && SumOf(rows + [row], InCurrency(d)) == SumOf(rows, InCurrency(d)) + (if here then 1 else 0)
      && SumOf(rows + [row], Owed(d)) == SumOf(rows, Owed(d)) - if here then row.balance.amount else 0
  {
    SumOfOneMore(rows, row, InCurrency(d));
    SumOfOneMore(rows, row, Owed(d));
  }

  lemma SumOfOneMore<T>(s: seq<T>, x: T, f: T -> int)
    ensures SumOf(s + [x], f) == SumOf(s, f) + f(x)
  {
    assert (s + [x])[..|s|] == s;
  }

  lemma TallyNone()
    ensures Tallied([], [], map[], map[])
  {
  }

  lemma TallyKeys(
    rows: seq<NegativeAccount>, keys: seq<Currency>, counts: map<Currency, int>, totals: map<Currency, Money>)
    requires Tallied(rows, keys, counts, totals)
    ensures Distinct(keys) && KeyedBy(keys, counts) && KeyedBy(keys, totals)
    ensures forall c | c in totals :: totals[c].currency == c
  {
  }

  lemma TalliedLists(
    rows: seq<NegativeAccount>, keys: seq<Currency>, counts: map<Currency, int>, totals: map<Currency, Money>,
    codes: seq<Currency>, exposures: seq<Exposure>)
    requires Tallied(rows, keys, counts, totals) && codes == InOrder(keys, CodeBefore)
    requires |exposures| == |codes|
    requires forall k | 0 <= k < |codes| :: codes[k] in totals && codes[k] in counts
    requires forall k | 0 <= k < |codes| :: exposures[k] == Exposure(codes[k], counts[codes[k]], totals[codes[k]])
    ensures ExposuresOf(exposures, rows)
  {
    hide InOrder, CodeBefore, SumOf;
    SortedCodes(keys);
    forall row | row in rows ensures exists e :: e in exposures && e.currency == row.balance.currency {
      var k :| 0 <= k < |codes| && codes[k] == row.balance.currency;
      assert exposures[k] in exposures;
    }
    forall e | e in exposures ensures e.currency in keys {
      var k :| 0 <= k < |exposures| && exposures[k] == e;
      assert codes[k] in codes;
    }
  }

  method ExposuresByCurrency(accounts: seq<NegativeAccount>) returns (exposures: seq<Exposure>)
    ensures ExposuresOf(exposures, accounts)
  {
    hide ExposuresOf, CodeBefore, InOrder, Tallied;
    TallyNone();
    var counts: map<Currency, int> := map[];
    var totals: map<Currency, Money> := map[];
    var keys: seq<Currency> := [];
    var i := 0;
    while i < |accounts|
      invariant 0 <= i <= |accounts|
      invariant Tallied(accounts[..i], keys, counts, totals)
    {
      TallyKeys(accounts[..i], keys, counts, totals);
      TallyOne(accounts[..i], accounts[i], keys, counts, totals);
      assert accounts[..i + 1] == accounts[..i] + [accounts[i]];
      var currency := accounts[i].balance.currency;
      counts := counts[currency := (if currency in counts then counts[currency] else 0) + 1];
      var sofar := if currency in totals then totals[currency] else Money(0, currency);
      if currency !in totals {
        keys := keys + [currency];
      }
      totals := totals[currency := sofar.Add(accounts[i].balance.Neg()).value];
      i := i + 1;
    }
    assert accounts[..i] == accounts;
    TallyKeys(accounts, keys, counts, totals);
    SortedCodes(keys);
    var codes := InOrder(keys, CodeBefore);
    assert forall k | 0 <= k < |codes| :: codes[k] in codes;
    exposures := seq(|codes|, k requires 0 <= k < |codes| && codes[k] in counts && codes[k] in totals =>
      Exposure(codes[k], counts[codes[k]], totals[codes[k]]));
    TalliedLists(accounts, keys, counts, totals, codes, exposures);
  }

  // ---- buckets by age

  /** The buckets' ranges share no age. */
  lemma OneBucketEach(bucket: Bucket, age: int)
    requires InRange(bucket, age)
    ensures forall b :: InRange(b, age) <==> b == bucket
  {
  }

  /** The first bucket whose ceiling the age stays below. */
  method BucketFor(age: int) returns (bucket: Bucket)
    ensures InRange(bucket, age)
  {
    var k := 0;
    while k < |BUCKET_CEILINGS|
      invariant 0 <= k < |BUCKET_CEILINGS|
      invariant forall j | 0 <= j < k :: BUCKET_CEILINGS[j].1.Some? && age >= BUCKET_CEILINGS[j].1.value
    {
      var ceiling := BUCKET_CEILINGS[k].1;
      if ceiling.None? || age < ceiling.value {
        FirstBelow(k, age);
        return BUCKET_CEILINGS[k].0;
      }
      k := k + 1;
    }
    bucket := OverThirtyDays;
  }

  ghost predicate Aged(counts: map<Bucket, int>, rows: seq<NegativeAccount>, asOf: int) {
    forall b :: b in counts && counts[b] == SumOf(rows, AgedIn(b, asOf))
  }

  lemma NothingAged(asOf: int)
    ensures Aged(map[UnderOneDay := 0, OneToSevenDays := 0, SevenToThirtyDays := 0, OverThirtyDays := 0], [], asOf)
  {
    var counts := map[UnderOneDay := 0, OneToSevenDays := 0, SevenToThirtyDays := 0, OverThirtyDays := 0];
    forall b: Bucket ensures b in counts && counts[b] == 0 {
      match b
      case UnderOneDay =>
      case OneToSevenDays =>
      case SevenToThirtyDays =>
      case OverThirtyDays =>
    }
  }

  /** A row with a start raises the one bucket its age lies in; a row without raises none. */
  lemma OneMoreAged(
    counts: map<Bucket, int>, rows: seq<NegativeAccount>, row: NegativeAccount, asOf: int, bucket: Bucket)
    requires Aged(counts, rows, asOf)
    requires row.since.Some? ==> InRange(bucket, asOf - row.since.value)
    ensures Aged(if row.since.Some? then counts[bucket := counts[bucket] + 1] else counts, rows + [row], asOf)
  {
    hide SumOf, InRange;
    if row.since.Some? {
      OneBucketEach(bucket, asOf - row.since.value);
    }
    forall b ensures SumOf(rows + [row], AgedIn(b, asOf)) == SumOf(rows, AgedIn(b, asOf)) + AgedIn(b, asOf)(row) {
      SumOfOneMore(rows, row, AgedIn(b, asOf));
    }
  }

  method AgeBuckets(accounts: seq<NegativeAccount>, asOf: int) returns (counts: map<Bucket, int>)
    ensures forall b :: b in counts && counts[b] == SumOf(accounts, AgedIn(b, asOf))
  {
    counts := map[UnderOneDay := 0, OneToSevenDays := 0, SevenToThirtyDays := 0, OverThirtyDays := 0];
    NothingAged(asOf);
    hide SumOf, InRange, AgedIn;
    var i := 0;
    while i < |accounts|
      invariant 0 <= i <= |accounts|
      invariant Aged(counts, accounts[..i], asOf)
    {
      assert accounts[..i + 1] == accounts[..i] + [accounts[i]];
      var since := accounts[i].since;
      if since.Some? {
        var bucket := BucketFor(asOf - since.value);
        OneMoreAged(counts, accounts[..i], accounts[i], asOf, bucket);
        counts := counts[bucket := counts[bucket] + 1];
      } else {
        OneMoreAged(counts, accounts[..i], accounts[i], asOf, OverThirtyDays);
      }
      i := i + 1;
    }
    assert accounts[..i] == accounts;
  }

  /** The first bucket whose ceiling an age stays below is the one whose range it lies in. */
  lemma FirstBelow(k: nat, age: int)
    requires k < |BUCKET_CEILINGS|
    requires forall j | 0 <= j < k :: BUCKET_CEILINGS[j].1.Some? && age >= BUCKET_CEILINGS[j].1.value
    requires BUCKET_CEILINGS[k].1.None? || age < BUCKET_CEILINGS[k].1.value
    ensures InRange(BUCKET_CEILINGS[k].0, age)
  {
    assert k > 0 ==> age >= BUCKET_CEILINGS[k - 1].1.value;
  }

  // ---- the report

  /** The gateway first; then one clock reading for every row. */
  method GetCollectionsReport(caller: Uuid, found: seq<NegativeAccount>, now: int) returns (r: Result<Report>)
    ensures r.Ok? <==> caller == ADMIN_PRINCIPAL_ID
    ensures r.Err? ==> r.error == UnauthorizedPrincipal
    ensures r.Ok? ==> ReportOn(r.value, found) && r.value.asOf == now
  {
    if caller != ADMIN_PRINCIPAL_ID {
      return Err(UnauthorizedPrincipal);
    }
    var ordered := Ordered(found);
    var exposures := ExposuresByCurrency(ordered);
    var buckets := AgeBuckets(ordered, now);
    return Ok(Report(now, ordered, exposures, buckets));
  }

  ghost predicate ReportOn(report: Report, found: seq<NegativeAccount>) {
    && report.accounts == Ordered(found)
    && ExposuresOf(report.exposures, report.accounts)
    && forall b :: b in report.ageBuckets && report.ageBuckets[b] == SumOf(report.accounts, AgedIn(b, report.asOf))
  }

  lemma {:induction false} EachRowAgesOnce(rows: seq<NegativeAccount>, asOf: int)
    ensures SumOf(rows, Unexplained) + SumOf(rows, AgedIn(UnderOneDay, asOf))
          + SumOf(rows, AgedIn(OneToSevenDays, asOf)) + SumOf(rows, AgedIn(SevenToThirtyDays, asOf))
          + SumOf(rows, AgedIn(OverThirtyDays, asOf)) == |rows|
  {
    if rows != [] {
      EachRowAgesOnce(rows[..|rows| - 1], asOf);
    }
  }

  function CountOf(e: Exposure): int { e.count }

  /** How many rows, among those of one list, each line of another stands for. */
  function LinesFor(exposures: seq<Exposure>, c: Currency): int {
    SumOf(exposures, (e: Exposure) => if e.currency == c then 1 else 0)
  }

  function RowsFor(rows: seq<NegativeAccount>): Exposure -> int {
    (e: Exposure) => SumOf(rows, InCurrency(e.currency))
  }

  lemma {:induction false} OneLineEach(exposures: seq<Exposure>, c: Currency)
    requires forall i, j | 0 <= i < j < |exposures| :: exposures[i].currency != exposures[j].currency
    ensures LinesFor(exposures, c) == if exists e :: e in exposures && e.currency == c then 1 else 0
  {
    if exposures != [] {
      var n := |exposures| - 1;
      OneLineEach(exposures[..n], c);
      assert exposures == exposures[..n] + [exposures[n]];
      if exposures[n].currency == c {
        assert forall e | e in exposures[..n] :: e.currency != c;
      }
    }
  }

  /** One more row raises the count of exactly the lines of its currency. */
  lemma {:induction false} OneMoreRow(exposures: seq<Exposure>, rows: seq<NegativeAccount>)
    requires rows != []
    ensures SumOf(exposures, RowsFor(rows))
         == SumOf(exposures, RowsFor(rows[..|rows| - 1])) + LinesFor(exposures, rows[|rows| - 1].balance.currency)
  {
    if exposures != [] {
      OneMoreRow(exposures[..|exposures| - 1], rows);
    }
  }

  lemma {:induction false} LinesCoverRows(exposures: seq<Exposure>, rows: seq<NegativeAccount>)
    requires forall i, j | 0 <= i < j < |exposures| :: exposures[i].currency != exposures[j].currency
    requires forall row | row in rows :: exists e :: e in exposures && e.currency == row.balance.currency
    ensures SumOf(exposures, RowsFor(rows)) == |rows|
  {
    if rows == [] {
      NoRowsNoCount(exposures);
    } else {
      var front := rows[..|rows| - 1];
      forall row | row in front ensures exists e :: e in exposures && e.currency == row.balance.currency {
        assert row in rows;
      }
      LinesCoverRows(exposures, front);
      assert rows[|rows| - 1] in rows;
      OneMoreRow(exposures, rows);
      OneLineEach(exposures, rows[|rows| - 1].balance.currency);
    }
  }

  lemma {:induction false} NoRowsNoCount(exposures: seq<Exposure>)
    ensures SumOf(exposures, RowsFor([])) == 0
  {
    if exposures != [] {
      NoRowsNoCount(exposures[..|exposures| - 1]);
    }
  }

  lemma {:induction false} SumsAgree<T>(s: seq<T>, f: T -> int, g: T -> int)
    requires forall x | x in s :: f(x) == g(x)
    ensures SumOf(s, f) == SumOf(s, g)
  {
    if s != [] {
      SumsAgree(s[..|s| - 1], f, g);
    }
  }

  /** Every row the query returned is counted once by age or as unexplained, once by currency, and its debt once. */
  lemma ReportAddsUp(report: Report, found: seq<NegativeAccount>)
    requires ReportOn(report, found)
    ensures |report.accounts| == |found|
    ensures report.UnexplainedCount() + report.ageBuckets[UnderOneDay] + report.ageBuckets[OneToSevenDays]
          + report.ageBuckets[SevenToThirtyDays] + report.ageBuckets[OverThirtyDays] == |found|
    ensures SumOf(report.exposures, CountOf) == |found|
    ensures forall e | e in report.exposures ::
      e.count == SumOf(found, InCurrency(e.currency)) && e.totalOwed.amount == SumOf(found, Owed(e.currency))
  {
    OrderedRows(found, report);
    EachRowAgesOnce(report.accounts, report.asOf);
    forall i, j | 0 <= i < j < |report.exposures|
      ensures report.exposures[i].currency != report.exposures[j].currency
    {
      assert CodeBefore(report.exposures[i].currency, report.exposures[j].currency);
      LexicalOrders(report.exposures[i].currency, report.exposures[j].currency);
    }
    LinesCoverRows(report.exposures, report.accounts);
    SumsAgree(report.exposures, CountOf, RowsFor(report.accounts));
    forall e | e in report.exposures
      ensures e.count == SumOf(found, InCurrency(e.currency))
           && e.totalOwed.amount == SumOf(found, Owed(e.currency))
    {
      SumOfMultiset(report.accounts, found, InCurrency(e.currency));
      SumOfMultiset(report.accounts, found, Owed(e.currency));
    }
  }

  /** The rows are what the query finds in the tables, in any order. */
  ghost predicate Lists(found: seq<NegativeAccount>, db: Db) {
    && (forall i, j | 0 <= i < j < |found| :: found[i].accountId != found[j].accountId)
    && (forall row | row in found ::
          && row.accountId in NegativeBalances(db)
          && row.since == NegativeBalances(db)[row.accountId]
          && row.owner == db.accounts[row.accountId].owner
          && row.balance == Money(db.accounts[row.accountId].balance, db.accounts[row.accountId].currency))
    && (forall a | a in NegativeBalances(db) :: exists row :: row in found && row.accountId == a)
  }

  lemma ListedAreExplained(db: Db, found: seq<NegativeAccount>)
    requires Reconciled(db) && Lists(found, db)
    ensures forall row | row in found :: row.since.Some? && row.balance.IsNegative()
  {
    hide NegativeBalances, Reconciled;
    forall row | row in found ensures row.since.Some? && row.balance.IsNegative() {
      InDebt(db, row.accountId);
      var _ := EveryDebtIsExplained(db, row.accountId);
    }
  }

  /** On reconciled books nothing is unexplained, every line owes something, and the first row is the oldest. */
  lemma ReconciledReport(db: Db, found: seq<NegativeAccount>, report: Report)
    requires Reconciled(db) && Lists(found, db) && ReportOn(report, found)
    ensures report.UnexplainedCount() == 0
    ensures report.OldestNegativeSince() == if found == [] then None else report.accounts[0].since
    ensures forall e | e in report.exposures :: e.totalOwed.IsPositive()
  {
    hide Reconciled, Lists, SumOf, Ordered, AgedIn;
    ListedAreExplained(db, found);
    OrderedRows(found, report);
    forall row | row in report.accounts ensures row.since.Some? && row.balance.IsNegative() {
      assert row in multiset(found);
    }
    assert found != [] ==> report.accounts[0] in report.accounts;
    forall e | e in report.exposures ensures e.totalOwed.IsPositive() {
      DebtIsPositive(report.accounts, e.currency);
    }
  }

  lemma InDebt(db: Db, a: Uuid)
    requires a in NegativeBalances(db)
    ensures a in db.accounts && db.accounts[a].kind == UserKind && db.accounts[a].balance < 0
  {
  }

  lemma {:induction false} DebtIsPositive(rows: seq<NegativeAccount>, c: Currency)
    requires forall row | row in rows :: row.balance.IsNegative()
    ensures SumOf(rows, Owed(c)) >= 0
    ensures (exists row :: row in rows && row.balance.currency == c) ==> SumOf(rows, Owed(c)) > 0
  {
    if rows != [] {
      DebtIsPositive(rows[..|rows| - 1], c);
      assert rows == rows[..|rows| - 1] + [rows[|rows| - 1]];
    }
  }
}
