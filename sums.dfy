// Sums of weighted keys, used for the conservation laws of the trace
// conversion and the trace statistics: adding up the per-key totals of a
// map, in any order of its keys, gives the total of all weights.

module Sums {
  /** The sum of all weights. */
  function Total<K>(ps: seq<(K, int)>): int
  {
    if ps == [] then 0 else Total(ps[..|ps| - 1]) + ps[|ps| - 1].1
  }

  /** The sum of the weights filed under key `k`. */
  function WeightOf<K(==)>(ps: seq<(K, int)>, k: K): int
  {
    if ps == [] then 0
    else WeightOf(ps[..|ps| - 1], k) + (if ps[|ps| - 1].0 == k then ps[|ps| - 1].1 else 0)
  }

  /** The per-key totals of `ps`, added up over the keys `ks`. */
  function SumOver<K(==)>(ks: seq<K>, ps: seq<(K, int)>): int
  {
    if ks == [] then 0 else SumOver(ks[..|ks| - 1], ps) + WeightOf(ps, ks[|ks| - 1])
  }

  /** The set of keys that occur in `ps`. */
  function KeySet<K>(ps: seq<(K, int)>): (r: set<K>)
    ensures forall i :: 0 <= i < |ps| ==> ps[i].0 in r
  {
    if ps == [] then {}
    else
      var r := KeySet(ps[..|ps| - 1]) + {ps[|ps| - 1].0};
      assert forall i :: 0 <= i < |ps| - 1 ==> ps[..|ps| - 1][i] == ps[i];
      r
  }

  ghost predicate Distinct<K>(ks: seq<K>)
  {
    forall i, j :: 0 <= i < j < |ks| ==> ks[i] != ks[j]
  }

  lemma {:induction false} TotalAppend<K>(a: seq<(K, int)>, b: seq<(K, int)>)
    ensures Total(a + b) == Total(a) + Total(b)
  {
    if b != [] {
      assert (a + b)[..|a + b| - 1] == a + b[..|b| - 1];
      TotalAppend(a, b[..|b| - 1]);
    } else {
      assert a + b == a;
    }
  }

  lemma {:induction false} WeightOfAppend<K>(a: seq<(K, int)>, b: seq<(K, int)>, k: K)
    ensures WeightOf(a + b, k) == WeightOf(a, k) + WeightOf(b, k)
  {
    if b != [] {
      assert (a + b)[..|a + b| - 1] == a + b[..|b| - 1];
      WeightOfAppend(a, b[..|b| - 1], k);
    } else {
      assert a + b == a;
    }
  }

  /** One more pair adds its weight to its own key only. */
  lemma WeightOfSnoc<K>(ps: seq<(K, int)>, x: (K, int), k: K)
    ensures WeightOf(ps + [x], k) == WeightOf(ps, k) + (if x.0 == k then x.1 else 0)
  {
    assert (ps + [x])[..|ps|] == ps;
  }

  /** A key that never occurs carries no weight. */
  lemma {:induction false} WeightOfAbsent<K>(ps: seq<(K, int)>, k: K)
    requires k !in KeySet(ps)
    ensures WeightOf(ps, k) == 0
  {
    if ps != [] {
      WeightOfAbsent(ps[..|ps| - 1], k);
    }
  }

  /** One more weighted key adds its weight to the sum over distinct keys exactly when it is among them. */
  lemma {:induction false} SumOverSnoc<K>(ks: seq<K>, ps: seq<(K, int)>, x: (K, int))
    requires Distinct(ks)
    ensures SumOver(ks, ps + [x]) == SumOver(ks, ps) + (if x.0 in ks then x.1 else 0)
  {
    if ks != [] {
      var init, last := ks[..|ks| - 1], ks[|ks| - 1];
      assert ks == init + [last];
      SumOverSnoc(init, ps, x);
      assert (ps + [x])[..|ps + [x]| - 1] == ps;
      assert x.0 in ks <==> x.0 in init || x.0 == last;
      assert !(x.0 in init && x.0 == last);
    }
  }

  /** Summing the per-key totals over distinct keys that cover every key gives the total. */
  lemma {:induction false} GroupedTotal<K>(ks: seq<K>, ps: seq<(K, int)>)
    requires Distinct(ks)
    requires forall i :: 0 <= i < |ps| ==> ps[i].0 in ks
    ensures SumOver(ks, ps) == Total(ps)
  {
    if ps == [] {
      SumOverEmpty(ks);
    } else {
      var init, x := ps[..|ps| - 1], ps[|ps| - 1];
      assert ps == init + [x];
      GroupedTotal(ks, init);
      SumOverSnoc(ks, init, x);
    }
  }

  lemma {:induction false} SumOverEmpty<K>(ks: seq<K>)
    ensures SumOver(ks, []) == 0
  {
    if ks != [] {
      SumOverEmpty(ks[..|ks| - 1]);
    }
  }
}
