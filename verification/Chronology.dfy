/** Entries in the order the queries read them: by time, then by id. */
module Chronology {
  import opened Entries
  import opened Identifiers
  import opened Sorting

  /** `(occurred_at, entry_id)`, strictly. */
  predicate Before(a: Entry, b: Entry) {
    a.occurredAt.micros < b.occurredAt.micros || (a.occurredAt.micros == b.occurredAt.micros && a.id < b.id)
  }

  ghost predicate Ascending(s: seq<Entry>) {
    Ascends(s, Before)
  }

  /** `ORDER BY occurred_at, entry_id`. */
  function Sorted(s: seq<Entry>): seq<Entry> {
    InOrder(s, Before)
  }

  /** `WHERE account_id = a`. */
  function OfAccount(entries: seq<Entry>, a: Uuid): seq<Entry> {
    if entries == [] then []
    else
      OfAccount(entries[..|entries| - 1], a)
      + if entries[|entries| - 1].accountId == a then [entries[|entries| - 1]] else []
  }

  lemma SortedIsSort(s: seq<Entry>)
    ensures Ascending(Sorted(s)) && multiset(Sorted(s)) == multiset(s)
    ensures |Sorted(s)| == |s| && forall x :: x in Sorted(s) <==> x in s
  {
    InOrderSorts(s, Before);
    InOrderMembers(s, Before);
  }

  lemma {:induction false} OfAccountMembers(entries: seq<Entry>, a: Uuid)
    ensures forall x :: x in OfAccount(entries, a) <==> x in entries && x.accountId == a
  {
    if entries != [] {
      OfAccountMembers(entries[..|entries| - 1], a);
      assert entries == entries[..|entries| - 1] + [entries[|entries| - 1]];
    }
  }
}
