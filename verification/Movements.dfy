/** One account's movements, newest first, a page at a time behind a keyset cursor. */
module Movements {
  import opened Chronology
  import opened Entries
  import opened Identifiers
  import opened Results
  import opened Sorting

  /** The last row of a page: the next page starts strictly below it. */
  datatype Cursor = Cursor(micros: int, id: Uuid)

  datatype Page = Page(items: seq<Entry>, next: Option<Cursor>)

  function CursorAt(e: Entry): Cursor {
    Cursor(e.occurredAt.micros, e.id)
  }

  /** `(occurred_at, entry_id) < cursor`, or no bound at all. */
  predicate Below(e: Entry, cursor: Option<Cursor>) {
    match cursor
    case None => true
    case Some(c) => e.occurredAt.micros < c.micros || (e.occurredAt.micros == c.micros && e.id < c.id)
  }

  function BelowCursor(s: seq<Entry>, cursor: Option<Cursor>): seq<Entry> {
    if s == [] then []
    else
      BelowCursor(s[..|s| - 1], cursor) + if Below(s[|s| - 1], cursor) then [s[|s| - 1]] else []
  }

  function NewestFirst(s: seq<Entry>): seq<Entry> {
    seq(|s|, i requires 0 <= i < |s| => s[|s| - 1 - i])
  }

  /** The account's rows below the cursor, oldest first. */
  function Matching(table: seq<Entry>, a: Uuid, cursor: Option<Cursor>): seq<Entry> {
    BelowCursor(Sorted(OfAccount(table, a)), cursor)
  }

  /** One row more than asked for tells whether there is a next page. */
  function PageOf(ordered: seq<Entry>, limit: nat): Page
    requires limit >= 1
  {
    var rows := if |ordered| > limit + 1 then ordered[..limit + 1] else ordered;
    if |rows| > limit then Page(rows[..limit], Some(CursorAt(rows[limit - 1]))) else Page(rows, None)
  }

  function FindByAccount(table: seq<Entry>, a: Uuid, limit: nat, cursor: Option<Cursor>): Page
    requires limit >= 1
  {
    PageOf(NewestFirst(Matching(table, a, cursor)), limit)
  }

  /** The primary key of `entries`. */
  ghost predicate UniqueEntryIds(table: seq<Entry>) {
    forall i, j | 0 <= i < j < |table| :: table[i].id != table[j].id
  }

  ghost predicate StrictlyAscending(s: seq<Entry>) {
    forall i, j | 0 <= i < j < |s| :: Before(s[i], s[j])
  }

  ghost predicate StrictlyDescending(s: seq<Entry>) {
    forall i, j | 0 <= i < j < |s| :: Before(s[j], s[i])
  }

  // ---- the ordered rows of one account

  lemma {:induction false} OfAccountMultiset(table: seq<Entry>, a: Uuid)
    ensures multiset(OfAccount(table, a)) <= multiset(table)
  {
    if table != [] {
      OfAccountMultiset(table[..|table| - 1], a);
      assert table == table[..|table| - 1] + [table[|table| - 1]];
    }
  }

  /** Rows of one account come out in strictly ascending (time, id). */
  lemma RowsAscend(table: seq<Entry>, a: Uuid)
    requires UniqueEntryIds(table)
    ensures StrictlyAscending(Sorted(OfAccount(table, a)))
    ensures forall x :: x in Sorted(OfAccount(table, a)) <==> x in table && x.accountId == a
  {
    var s := Sorted(OfAccount(table, a));
    SortedIsSort(OfAccount(table, a));
    OfAccountMembers(table, a);
    OfAccountMultiset(table, a);
    DistinctPart(table, s);
    forall i, j | 0 <= i < j < |s| ensures Before(s[i], s[j]) {
      assert s[i] in s && s[j] in s && s[i] != s[j];
    }
  }

  lemma {:induction false} BelowPrefix(s: seq<Entry>, cursor: Option<Cursor>) returns (m: nat)
    requires StrictlyAscending(s)
    ensures m <= |s| && BelowCursor(s, cursor) == s[..m]
    ensures forall i | 0 <= i < |s| :: Below(s[i], cursor) <==> i < m
  {
    if s == [] {
      return 0;
    }
    var n := |s| - 1;
    m := BelowPrefix(s[..n], cursor);
    if Below(s[n], cursor) {
      forall i | 0 <= i < n ensures Below(s[i], cursor) {
        assert Before(s[i], s[n]);
      }
      assert s[..n] + [s[n]] == s[..n + 1];
      m := n + 1;
    }
  }

  lemma PageOfNewest(s: seq<Entry>, limit: nat)
    requires limit >= 1
    ensures PageOf(NewestFirst(s), limit) ==
      if |s| > limit then Page(NewestFirst(s[|s| - limit..]), Some(CursorAt(s[|s| - limit])))
      else Page(NewestFirst(s), None)
  {
    var ordered := NewestFirst(s);
    if |s| > limit {
      assert ordered[..limit + 1][..limit] == ordered[..limit];
      assert ordered[..limit] == NewestFirst(s[|s| - limit..]);
      if |s| == limit + 1 {
        assert ordered[..limit + 1] == ordered;
      }
    }
  }

  /** A page in terms of the account's rows: the next `limit` below the cursor, and whether any are left. */
  lemma PageIs(table: seq<Entry>, a: Uuid, limit: nat, cursor: Option<Cursor>) returns (m: nat)
    requires limit >= 1 && UniqueEntryIds(table)
    ensures
      var s := Sorted(OfAccount(table, a));
      && m <= |s| && Matching(table, a, cursor) == s[..m]
      && (forall i | 0 <= i < |s| :: Below(s[i], cursor) <==> i < m)
      && FindByAccount(table, a, limit, cursor) ==
           if m > limit then Page(NewestFirst(s[m - limit..m]), Some(CursorAt(s[m - limit])))
           else Page(NewestFirst(s[..m]), None)
  {
    hide Sorted, OfAccount, PageOf, NewestFirst;
    var s := Sorted(OfAccount(table, a));
    RowsAscend(table, a);
    m := BelowPrefix(s, cursor);
    PageOfNewest(s[..m], limit);
    if m > limit {
      assert s[..m][m - limit..] == s[m - limit..m];
    }
  }

  /** The rows of `s` from `lo` up to `m`, newest first, are what a page shows. */
  lemma SliceShown(s: seq<Entry>, lo: nat, m: nat)
    requires StrictlyAscending(s) && lo <= m <= |s|
    ensures StrictlyDescending(NewestFirst(s[lo..m]))
    ensures forall e :: e in NewestFirst(s[lo..m]) <==> exists i :: lo <= i < m && s[i] == e
  {
    var shown := NewestFirst(s[lo..m]);
    forall i | lo <= i < m ensures s[i] in shown {
      assert shown[m - 1 - i] == s[i];
    }
  }

  /** Everything still below the cursor is on the page or below the next cursor, and the page itself is not. */
  lemma PageCovers(table: seq<Entry>, a: Uuid, limit: nat, cursor: Option<Cursor>)
    requires limit >= 1 && UniqueEntryIds(table)
    ensures
      var page := FindByAccount(table, a, limit, cursor);
      && StrictlyDescending(page.items)
      && (forall e | e in page.items :: e in table && e.accountId == a && Below(e, cursor))
      && (page.next.Some? ==> page.items != [] && forall e | e in page.items :: !Below(e, page.next))
      && (forall e | e in table && e.accountId == a && Below(e, cursor) ::
            e in page.items || (page.next.Some? && Below(e, page.next)))
  {
    hide Sorted, OfAccount, NewestFirst, FindByAccount, Matching;
    var s := Sorted(OfAccount(table, a));
    RowsAscend(table, a);
    var m := PageIs(table, a, limit, cursor);
    var page := FindByAccount(table, a, limit, cursor);
    var lo := if m > limit then m - limit else 0;
    SliceShown(s, lo, m);
    assert s[..m] == s[0..m];
    if m > limit {
      assert s[lo] in page.items;
    }
    forall e | e in page.items
      ensures e in s && Below(e, cursor) && (page.next.Some? ==> !Below(e, page.next))
    {
      var i :| lo <= i < m && s[i] == e;
    }
    forall e | e in table && e.accountId == a && Below(e, cursor)
      ensures e in page.items || (page.next.Some? && Below(e, page.next))
    {
      assert e in s;
      var i :| 0 <= i < |s| && s[i] == e;
      if i < lo {
        assert Before(s[i], s[lo]);
      }
    }
  }

  // ---- following the cursor

  /** Pages read one after another, each from the table as it then was; the table is only ever appended to. */
  ghost predicate Traversal(tables: seq<seq<Entry>>, pages: seq<Page>, a: Uuid, limit: nat, start: Option<Cursor>)
    requires limit >= 1
  {
    && |tables| == |pages| >= 1
    && UniqueEntryIds(tables[0])
    && pages[0] == FindByAccount(tables[0], a, limit, start)
    && if pages[0].next.None? then |pages| == 1
       else |pages| > 1 && tables[0] <= tables[1] && Traversal(tables[1..], pages[1..], a, limit, pages[0].next)
  }

  function Visited(pages: seq<Page>): seq<Entry> {
    if pages == [] then [] else pages[0].items + Visited(pages[1..])
  }

  /** Below a cursor that is itself below another is below both. */
  lemma BelowChain(e: Entry, lower: Option<Cursor>, e': Entry)
    requires lower.Some? && Below(e, lower) && !Below(e', lower)
    ensures Before(e, e')
  {
  }

  lemma JoinPages(items: seq<Entry>, rest: seq<Entry>, next: Option<Cursor>, start: Option<Cursor>)
    requires next.Some? && items != []
    requires StrictlyDescending(items) && StrictlyDescending(rest)
    requires forall e | e in items :: !Below(e, next) && Below(e, start)
    requires forall e | e in rest :: Below(e, next)
    ensures StrictlyDescending(items + rest)
    ensures forall e | e in rest :: Below(e, start)
  {
    forall i, j | 0 <= i < |items| && 0 <= j < |rest| ensures Before(rest[j], items[i]) {
      assert items[i] in items && rest[j] in rest;
      BelowChain(rest[j], next, items[i]);
    }
    forall e | e in rest ensures Below(e, start) {
      assert items[0] in items;
      BelowChain(e, next, items[0]);
    }
  }

  /**
   * Whatever is appended between calls, following the cursor visits every entry that was there at the first call,
   * none twice, in strictly descending (time, id), and nothing of another account.
   */
  lemma {:induction false} VisitsAllOnce(
    tables: seq<seq<Entry>>, pages: seq<Page>, a: Uuid, limit: nat, start: Option<Cursor>)
    requires limit >= 1 && Traversal(tables, pages, a, limit, start)
    ensures StrictlyDescending(Visited(pages))
    ensures forall e | e in tables[0] && e.accountId == a && Below(e, start) :: e in Visited(pages)
    ensures tables[0] <= tables[|tables| - 1]
    ensures forall e | e in Visited(pages) ::
      e in tables[|tables| - 1] && e.accountId == a && Below(e, start)
    decreases |pages|
  {
    hide FindByAccount, Below;
    PageCovers(tables[0], a, limit, start);
    if |pages| == 1 {
      assert Visited(pages[1..]) == [];
      assert Visited(pages) == pages[0].items;
    } else {
      VisitsAllOnce(tables[1..], pages[1..], a, limit, pages[0].next);
      JoinPages(pages[0].items, Visited(pages[1..]), pages[0].next, start);
      assert forall e | e in tables[0] :: e in tables[1];
      assert forall e | e in tables[0] :: e in tables[|tables| - 1];
    }
  }

  /** Exactly the rows before `at` lie below the cursor at `at`. */
  lemma RestBelow(s: seq<Entry>, at: nat, next: nat)
    requires StrictlyAscending(s) && at < |s| && next <= |s|
    requires forall i | 0 <= i < |s| :: Below(s[i], Some(CursorAt(s[at]))) <==> i < next
    ensures next == at
  {
    assert !Below(s[at], Some(CursorAt(s[at])));
    assert next < |s| ==> !Below(s[next], Some(CursorAt(s[at])));
    forall i | 0 <= i < at ensures Below(s[i], Some(CursorAt(s[at]))) {
      assert Before(s[i], s[at]);
    }
  }

  /** A page either ends the listing or takes exactly `limit` rows off what is left. */
  lemma PageTakes(table: seq<Entry>, a: Uuid, limit: nat, start: Option<Cursor>)
    requires limit >= 1 && UniqueEntryIds(table)
    ensures
      var page := FindByAccount(table, a, limit, start);
      var n := |Matching(table, a, start)|;
      if page.next.None? then n <= limit
      else n > limit && |Matching(table, a, page.next)| == n - limit
  {
    hide FindByAccount, Matching, Sorted, OfAccount, NewestFirst;
    RowsAscend(table, a);
    var m := PageIs(table, a, limit, start);
    var page := FindByAccount(table, a, limit, start);
    if m > limit {
      var next := PageIs(table, a, limit, page.next);
      RestBelow(Sorted(OfAccount(table, a)), m - limit, next);
    }
  }

  /** `pages` is n / limit rounded up, and one for an empty listing. */
  predicate RoundedUp(pages: nat, n: nat, limit: nat) {
    if n == 0 then pages == 1 else (pages - 1) * limit < n <= pages * limit
  }

  lemma RoundedUpStep(pages: nat, n: nat, limit: nat)
    requires n > limit >= 1 && pages >= 1 && RoundedUp(pages, n - limit, limit)
    ensures RoundedUp(pages + 1, n, limit)
  {
    assert (pages + 1) * limit == pages * limit + limit;
    assert pages * limit == (pages - 1) * limit + limit;
  }

  /** On a ledger nobody appends to, n entries take exactly max(1, n / limit rounded up) pages. */
  lemma {:induction false} PageCount(
    table: seq<Entry>, tables: seq<seq<Entry>>, pages: seq<Page>, a: Uuid, limit: nat, start: Option<Cursor>)
    requires limit >= 1 && Traversal(tables, pages, a, limit, start) && forall t | t in tables :: t == table
    ensures RoundedUp(|pages|, |Matching(table, a, start)|, limit)
    decreases |pages|
  {
    hide FindByAccount, Matching;
    assert tables[0] in tables;
    PageTakes(table, a, limit, start);
    if |pages| > 1 {
      assert forall t | t in tables[1..] :: t in tables;
      PageCount(table, tables[1..], pages[1..], a, limit, pages[0].next);
      RoundedUpStep(|pages| - 1, |Matching(table, a, start)|, limit);
    }
  }
}
