/** Adding up a finite map, in whatever order its keys are visited. */
module Sums {

  ghost function Total<K>(m: map<K, int>): int {
    if m == map[] then 0
    else
      var k :| k in m;
      m[k] + Total(m - {k})
  }

  /** Any key may be taken out first. */
  lemma {:induction false} TotalTakes<K>(m: map<K, int>, k: K)
    requires k in m
    ensures Total(m) == m[k] + Total(m - {k})
    decreases |m|
  {
    var first :| first in m && Total(m) == m[first] + Total(m - {first});
    if first != k {
      TotalTakes(m - {first}, k);
      TotalTakes(m - {k}, first);
      assert m - {first} - {k} == m - {k} - {first};
    }
  }

  lemma TotalUpdated<K>(m: map<K, int>, k: K, v: int)
    ensures Total(m[k := v]) == Total(m) - (if k in m then m[k] else 0) + v
  {
    TotalTakes(m[k := v], k);
    assert m[k := v] - {k} == m - {k};
    if k in m {
      TotalTakes(m, k);
    } else {
      assert m - {k} == m;
    }
  }

  /** Taking from one key and giving to another; keys outside the map take part in neither. */
  lemma TotalMoved<K>(before: map<K, int>, after: map<K, int>, from: K, to: K, amount: int)
    requires from != to && after.Keys == before.Keys
    requires forall k | k in before ::
      after[k] == before[k] + (if k == to then amount else 0) - (if k == from then amount else 0)
    ensures Total(after)
         == Total(before) + (if to in before then amount else 0) - (if from in before then amount else 0)
  {
    hide Total;
    var taken := if from in before then before[from := before[from] - amount] else before;
    var given := if to in taken then taken[to := taken[to] + amount] else taken;
    assert after == given;
    if from in before {
      TotalUpdated(before, from, before[from] - amount);
    }
    if to in taken {
      TotalUpdated(taken, to, taken[to] + amount);
    }
  }

  lemma {:induction false} TotalNonNegative<K>(m: map<K, int>)
    requires forall k | k in m :: m[k] >= 0
    ensures Total(m) >= 0
    decreases |m|
  {
    if m != map[] {
      var first :| first in m && Total(m) == m[first] + Total(m - {first});
      TotalNonNegative(m - {first});
    }
  }
}
