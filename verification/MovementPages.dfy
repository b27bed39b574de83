/** Movements as they are served: each page hands out its cursor as text, and the next call hands that text back. */
module MovementPages {
  import opened Appending
  import opened Cursors
  import opened Entries
  import opened Identifiers
  import opened Instants
  import opened Movements
  import opened NegativeEpisodes
  import opened Protocol
  import opened Results
  import opened Runs

  datatype TextPage = TextPage(items: seq<Entry>, next: Option<string>)

  /** Timestamps are shown at the session's offset from UTC. */
  function CursorText(c: Cursor, offset: int): string {
    EncodeCursor(MomentAt(c.micros, offset), c.id)
  }

  /** No text is no bound; an undecodable one is refused, before anything is read. */
  function BoundOf(cursor: Option<string>): Option<Option<Cursor>> {
    match cursor
    case None => Some(None)
    case Some(text) =>
      var (at, id) :- DecodeCursor(text);
      if at.Valid() then Some(Some(Cursor(InstantOf(at), id))) else None
  }

  function FindPage(table: seq<Entry>, a: Uuid, limit: nat, cursor: Option<string>, offset: int): Option<TextPage>
    requires limit >= 1
  {
    var bound :- BoundOf(cursor);
    var page := FindByAccount(table, a, limit, bound);
    Some(TextPage(page.items, if page.next.Some? then Some(CursorText(page.next.value, offset)) else None))
  }

  /** The clock's type can hold every entry's timestamp. */
  ghost predicate Datable(table: seq<Entry>, offset: int) {
    forall e | e in table :: InCalendar(e.occurredAt.micros, offset)
  }

  /** A cursor made from an entry reads back as the same bound. */
  lemma TextBoundsAlike(c: Cursor, offset: int)
    requires InCalendar(c.micros, offset)
    ensures BoundOf(Some(CursorText(c, offset))) == Some(Some(c))
  {
    hide EncodeCursor, DecodeCursor, MomentAt, InstantOf;
    MomentNamesInstant(c.micros, offset);
    CursorRoundTrip(MomentAt(c.micros, offset), c.id);
  }

  lemma NextIsOnPage(table: seq<Entry>, a: Uuid, limit: nat, start: Option<Cursor>) returns (e: Entry)
    requires limit >= 1 && FindByAccount(table, a, limit, start).next.Some?
    ensures e in FindByAccount(table, a, limit, start).items
    ensures FindByAccount(table, a, limit, start).next == Some(CursorAt(e))
  {
    e := FindByAccount(table, a, limit, start).items[limit - 1];
  }

  /** Each call hands back the text the one before handed out, until none is; the table is only ever appended to. */
  ghost predicate Followed(
    tables: seq<seq<Entry>>, pages: seq<TextPage>, a: Uuid, limit: nat, start: Option<string>, offset: int)
    requires limit >= 1
  {
    && |tables| == |pages| >= 1
    && UniqueEntryIds(tables[0]) && Datable(tables[0], offset)
    && FindPage(tables[0], a, limit, start, offset) == Some(pages[0])
    && if pages[0].next.None? then |pages| == 1
       else
         && |pages| > 1 && tables[0] <= tables[1]
         && Followed(tables[1..], pages[1..], a, limit, pages[0].next, offset)
  }

  function Listed(pages: seq<TextPage>): seq<Entry> {
    if pages == [] then [] else pages[0].items + Listed(pages[1..])
  }

  /** Behind the texts are the bounds: the pages are those of a traversal. */
  lemma {:induction false} FollowedTraverses(
    tables: seq<seq<Entry>>, pages: seq<TextPage>, a: Uuid, limit: nat, start: Option<string>, offset: int,
    bound: Option<Cursor>)
    returns (plain: seq<Page>)
    requires limit >= 1 && Followed(tables, pages, a, limit, start, offset) && BoundOf(start) == Some(bound)
    ensures Traversal(tables, plain, a, limit, bound) && Visited(plain) == Listed(pages)
    decreases |pages|
  {
    hide FindByAccount, BoundOf, CursorText, InCalendar;
    var page := FindByAccount(tables[0], a, limit, bound);
    if page.next.None? {
      plain := [page];
      assert plain[1..] == [] && pages[1..] == [];
    } else {
      var e := NextIsOnPage(tables[0], a, limit, bound);
      PageCovers(tables[0], a, limit, bound);
      TextBoundsAlike(page.next.value, offset);
      var rest := FollowedTraverses(tables[1..], pages[1..], a, limit, pages[0].next, offset, page.next);
      plain := [page] + rest;
      assert plain[1..] == rest;
    }
  }

  /**
   * Following the cursor texts lists every entry of the account present at the first call, none twice, newest first,
   * whatever is appended between calls.
   */
  lemma TextsListAllOnce(tables: seq<seq<Entry>>, pages: seq<TextPage>, a: Uuid, limit: nat, offset: int)
    requires limit >= 1 && Followed(tables, pages, a, limit, None, offset)
    ensures StrictlyDescending(Listed(pages))
    ensures forall e | e in tables[0] && e.accountId == a :: e in Listed(pages)
    ensures forall e | e in Listed(pages) :: e in tables[|tables| - 1] && e.accountId == a
  {
    hide Listed, Visited, Traversal;
    var plain := FollowedTraverses(tables, pages, a, limit, None, offset, None);
    VisitsAllOnce(tables, plain, a, limit, None);
  }

  /** No call that hands back what it was handed is refused for its cursor. */
  lemma HandedBackIsAccepted(
    table: seq<Entry>, later: seq<Entry>, a: Uuid, limit: nat, start: Option<string>, offset: int)
    requires limit >= 1 && UniqueEntryIds(table) && Datable(table, offset)
    requires FindPage(table, a, limit, start, offset).Some?
    ensures FindPage(later, a, limit, FindPage(table, a, limit, start, offset).value.next, offset).Some?
  {
    hide FindByAccount, CursorText, InCalendar;
    var bound := BoundOf(start).value;
    var page := FindByAccount(table, a, limit, bound);
    if page.next.Some? {
      var e := NextIsOnPage(table, a, limit, bound);
      PageCovers(table, a, limit, bound);
      TextBoundsAlike(page.next.value, offset);
    }
  }

  /** A text that does not decode is refused, never read as no cursor at all; there are such texts. */
  lemma UndecodableIsRefused(table: seq<Entry>, a: Uuid, limit: nat, text: string, offset: int)
    requires limit >= 1
    ensures DecodeCursor(text).None? ==> FindPage(table, a, limit, Some(text), offset).None?
    ensures DecodeCursor("!").None?
  {
    assert |"!"| % 4 != 0;
  }

  // ---- over a run of the service

  /** Each page is read at its own moment of the run. */
  ghost predicate ServedDuring(
    run: seq<State>, moments: seq<nat>, pages: seq<TextPage>, a: Uuid, limit: nat, start: Option<string>, offset: int)
    requires limit >= 1
  {
    && |moments| == |pages| >= 1 && moments[0] < |run|
    && Datable(EntriesTable(run[moments[0]].db.transfers), offset)
    && FindPage(EntriesTable(run[moments[0]].db.transfers), a, limit, start, offset) == Some(pages[0])
    && if pages[0].next.None? then |pages| == 1
       else
         && |pages| > 1 && moments[0] <= moments[1]
         && ServedDuring(run, moments[1..], pages[1..], a, limit, pages[0].next, offset)
  }

  lemma {:induction false} ServedFollows(
    run: seq<State>, moments: seq<nat>, pages: seq<TextPage>, a: Uuid, limit: nat, start: Option<string>, offset: int)
    requires IsRun(run) && limit >= 1 && ServedDuring(run, moments, pages, a, limit, start, offset)
    ensures forall i | i in moments :: i < |run|
    ensures Followed(TablesAt(run, moments), pages, a, limit, start, offset)
    decreases |pages|
  {
    hide IsRun, EntriesTable, FindPage, Datable;
    EntryIdsUnique(run, moments[0]);
    if pages[0].next.Some? {
      ServedFollows(run, moments[1..], pages[1..], a, limit, pages[0].next, offset);
      assert moments == [moments[0]] + moments[1..];
      assert TablesAt(run, moments)[1..] == TablesAt(run, moments[1..]);
      LedgerGrows(run, moments[0], moments[1]);
      TableGrows(run[moments[0]].db.transfers, run[moments[1]].db.transfers);
    }
  }

  /** Served pages of a live ledger list every movement present at the first call, none twice, newest first. */
  lemma ServedPagesListAllOnce(
    run: seq<State>, moments: seq<nat>, pages: seq<TextPage>, a: Uuid, limit: nat, offset: int)
    requires IsRun(run) && limit >= 1 && ServedDuring(run, moments, pages, a, limit, None, offset)
    ensures StrictlyDescending(Listed(pages))
    ensures forall e | e in EntriesTable(run[moments[0]].db.transfers) && e.accountId == a :: e in Listed(pages)
    ensures forall e | e in Listed(pages) :: e.accountId == a
  {
    hide IsRun, EntriesTable, Listed, Followed, FindPage;
    ServedFollows(run, moments, pages, a, limit, None, offset);
    TextsListAllOnce(TablesAt(run, moments), pages, a, limit, offset);
  }
}
