/** A stable sort, under any ordering that ranks its elements. */
module Sorting {

  /** `before` ranks: it never holds both ways, and not being behind is transitive. */
  ghost predicate Ranks<T(!new)>(before: (T, T) -> bool) {
    && (forall x, y | before(x, y) :: !before(y, x))
    && (forall x, y, z | !before(y, x) && !before(z, y) :: !before(z, x))
  }

  ghost predicate Ascends<T>(s: seq<T>, before: (T, T) -> bool) {
    forall i, j | 0 <= i < j < |s| :: !before(s[j], s[i])
  }

  /** In front of the elements it precedes, behind those it ties with. */
  function Slotted<T>(s: seq<T>, e: T, before: (T, T) -> bool): (r: seq<T>)
    ensures |r| == |s| + 1
  {
    if s == [] || !before(e, s[|s| - 1]) then s + [e]
    else Slotted(s[..|s| - 1], e, before) + [s[|s| - 1]]
  }

  function InOrder<T>(s: seq<T>, before: (T, T) -> bool): seq<T> {
    if s == [] then [] else Slotted(InOrder(s[..|s| - 1], before), s[|s| - 1], before)
  }

  /** The elements that tie with `x`, in the order they stand. */
  function Tied<T>(s: seq<T>, x: T, before: (T, T) -> bool): seq<T> {
    if s == [] then []
    else
      Tied(s[..|s| - 1], x, before)
      + if before(x, s[|s| - 1]) || before(s[|s| - 1], x) then [] else [s[|s| - 1]]
  }

  lemma {:induction false} SlottedMultiset<T>(s: seq<T>, e: T, before: (T, T) -> bool)
    ensures multiset(Slotted(s, e, before)) == multiset(s) + multiset{e}
  {
    if s != [] && before(e, s[|s| - 1]) {
      SlottedMultiset(s[..|s| - 1], e, before);
      assert s == s[..|s| - 1] + [s[|s| - 1]];
    }
  }

  lemma SlottedMembers<T>(s: seq<T>, e: T, before: (T, T) -> bool)
    ensures forall x :: x in Slotted(s, e, before) <==> x in s || x == e
  {
    SlottedMultiset(s, e, before);
    forall x ensures x in Slotted(s, e, before) <==> x in s || x == e {
      assert x in Slotted(s, e, before) <==> x in multiset(Slotted(s, e, before));
      assert x in s <==> x in multiset(s);
    }
  }

  lemma {:induction false} SlottedAscends<T(!new)>(s: seq<T>, e: T, before: (T, T) -> bool)
    requires Ranks(before) && Ascends(s, before)
    ensures Ascends(Slotted(s, e, before), before)
  {
    if s == [] {
    } else if before(e, s[|s| - 1]) {
      var front, last := s[..|s| - 1], s[|s| - 1];
      SlottedAscends(front, e, before);
      SlottedMembers(front, e, before);
      forall x | x in Slotted(front, e, before) ensures !before(last, x) {
        if x != e {
          var i :| 0 <= i < |front| && front[i] == x;
          assert s[i] == x;
        }
      }
    } else {
      forall i | 0 <= i < |s| ensures !before(e, s[i]) {
        assert i < |s| - 1 ==> !before(s[|s| - 1], s[i]);
      }
    }
  }

  lemma {:induction false} SlottedTied<T(!new)>(s: seq<T>, e: T, x: T, before: (T, T) -> bool)
    requires Ranks(before)
    ensures Tied(Slotted(s, e, before), x, before) == Tied(s + [e], x, before)
  {
    if s != [] && before(e, s[|s| - 1]) {
      var front, last := s[..|s| - 1], s[|s| - 1];
      SlottedTied(front, e, x, before);
      assert (s + [e])[..|s|] == s && (front + [e])[..|front|] == front;
      assert Slotted(s, e, before)[..|s|] == Slotted(front, e, before);
      assert before(x, e) || before(e, x) || before(x, last) || before(last, x);
    }
  }

  lemma {:induction false} InOrderTied<T(!new)>(s: seq<T>, x: T, before: (T, T) -> bool)
    requires Ranks(before)
    ensures Tied(InOrder(s, before), x, before) == Tied(s, x, before)
  {
    hide Slotted, Ranks;
    if s != [] {
      var front, last := s[..|s| - 1], s[|s| - 1];
      InOrderTied(front, x, before);
      var sorted := InOrder(front, before);
      SlottedTied(sorted, last, x, before);
      assert (sorted + [last])[..|sorted|] == sorted;
    }
  }

  /** Sorted is in order, a permutation, and leaves elements that tie as they stood. */
  lemma {:induction false} InOrderSorts<T(!new)>(s: seq<T>, before: (T, T) -> bool)
    requires Ranks(before)
    ensures Ascends(InOrder(s, before), before)
    ensures multiset(InOrder(s, before)) == multiset(s)
    ensures forall x :: Tied(InOrder(s, before), x, before) == Tied(s, x, before)
  {
    hide Slotted, Ranks, Ascends, Tied;
    if s == [] {
      EmptyAscends(before);
    } else {
      var front, last := s[..|s| - 1], s[|s| - 1];
      InOrderSorts(front, before);
      SlottedAscends(InOrder(front, before), last, before);
      SlottedMultiset(InOrder(front, before), last, before);
      assert s == front + [last];
    }
    forall x ensures Tied(InOrder(s, before), x, before) == Tied(s, x, before) {
      InOrderTied(s, x, before);
    }
  }

  lemma EmptyAscends<T>(before: (T, T) -> bool)
    ensures Ascends([], before)
  {
  }

  lemma InOrderMembers<T(!new)>(s: seq<T>, before: (T, T) -> bool)
    requires Ranks(before)
    ensures |InOrder(s, before)| == |s| && forall x :: x in InOrder(s, before) <==> x in s
  {
    InOrderSorts(s, before);
    assert |multiset(InOrder(s, before))| == |multiset(s)|;
    forall x ensures x in InOrder(s, before) <==> x in s {
      assert x in InOrder(s, before) <==> x in multiset(InOrder(s, before));
      assert x in s <==> x in multiset(s);
    }
  }

  /** Sorting leaves a list as it is if and only if it already ascends. */
  lemma {:induction false} SortedAlready<T(!new)>(s: seq<T>, before: (T, T) -> bool)
    requires Ranks(before)
    ensures InOrder(s, before) == s <==> Ascends(s, before)
  {
    InOrderSorts(s, before);
    if Ascends(s, before) && s != [] {
      var front, last := s[..|s| - 1], s[|s| - 1];
      assert forall i, j | 0 <= i < j < |front| :: front[i] == s[i] && front[j] == s[j];
      SortedAlready(front, before);
      assert front != [] ==> !before(s[|s| - 1], s[|s| - 2]);
      assert s == front + [last];
    }
  }

  // ---- lists without repeats

  ghost predicate Distinct<T>(s: seq<T>) {
    forall i, j | 0 <= i < j < |s| :: s[i] != s[j]
  }

  lemma {:induction false} DistinctOnce<T>(s: seq<T>)
    requires Distinct(s)
    ensures forall x | x in s :: multiset(s)[x] == 1
  {
    if s != [] {
      var n := |s| - 1;
      DistinctOnce(s[..n]);
      assert s == s[..n] + [s[n]];
      assert s[n] !in s[..n];
    }
  }

  lemma PairCounts<T>(s: seq<T>, i: nat, j: nat)
    requires i < j < |s| && s[i] == s[j]
    ensures multiset(s)[s[i]] >= 2
  {
    assert s == s[..j] + [s[j]] + s[j + 1..];
    assert s[i] in s[..j];
  }

  /** Taking some of a list without repeats, in any order, repeats nothing. */
  lemma DistinctPart<T>(s: seq<T>, part: seq<T>)
    requires Distinct(s) && multiset(part) <= multiset(s)
    ensures Distinct(part)
  {
    DistinctOnce(s);
    forall i, j | 0 <= i < j < |part| ensures part[i] != part[j] {
      assert part[i] in multiset(part) && part[i] in multiset(s);
      if part[i] == part[j] {
        PairCounts(part, i, j);
      }
    }
  }
}
