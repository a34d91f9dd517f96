/** What it means to pick elements out of a list: which ones, each as often as it stands there, in the list's order. */
module Selections {
  predicate Ascending(idx: seq<nat>, n: nat) {
    && (forall a, b :: 0 <= a < b < |idx| ==> idx[a] < idx[b])
    && (forall a :: 0 <= a < |idx| ==> idx[a] < n)
  }

  /** The picked elements are those at these positions of xs. */
  predicate Picks<T(==)>(xs: seq<T>, idx: seq<nat>, picked: seq<T>) {
    && Ascending(idx, |xs|)
    && |picked| == |idx|
    && forall k :: 0 <= k < |idx| ==> picked[k] == xs[idx[k]]
  }

  /** The positions marked, counted from base. */
  function PositionsFrom(keep: seq<bool>, base: nat): (idx: seq<nat>)
    ensures forall k :: 0 <= k < |idx| ==> base <= idx[k] < base + |keep|
  {
    if keep == [] then [] else (if keep[0] then [base] else []) + PositionsFrom(keep[1..], base + 1)
  }

  lemma {:induction false} PositionsAscend(keep: seq<bool>, base: nat)
    ensures Ascending(PositionsFrom(keep, base), base + |keep|)
  {
    if keep != [] {
      PositionsAscend(keep[1..], base + 1);
      var idx, rest := PositionsFrom(keep, base), PositionsFrom(keep[1..], base + 1);
      if keep[0] {
        assert idx == [base] + rest;
        assert forall b :: 0 <= b < |rest| ==> rest[b] in rest;
      } else {
        assert idx == rest;
      }
    }
  }

  lemma {:induction false} PositionsAreMarked(keep: seq<bool>, base: nat, i: nat)
    requires i < |keep|
    ensures base + i in PositionsFrom(keep, base) <==> keep[i]
  {
    if i > 0 {
      PositionsAreMarked(keep[1..], base + 1, i - 1);
    }
  }

  /** Filtering by marks keeps the elements at the marked positions. */
  function Filter<T>(xs: seq<T>, keep: seq<bool>): seq<T>
    requires |xs| == |keep|
  {
    if xs == [] then [] else (if keep[0] then [xs[0]] else []) + Filter(xs[1..], keep[1..])
  }

  lemma {:induction false} FilterLength<T>(xs: seq<T>, keep: seq<bool>, base: nat)
    requires |xs| == |keep|
    ensures |Filter(xs, keep)| == |PositionsFrom(keep, base)|
  {
    if xs != [] {
      FilterLength(xs[1..], keep[1..], base + 1);
    }
  }

  lemma {:induction false} FilterAt<T>(xs: seq<T>, keep: seq<bool>, base: nat, k: nat)
    requires |xs| == |keep| && k < |Filter(xs, keep)| == |PositionsFrom(keep, base)|
    ensures Filter(xs, keep)[k] == xs[PositionsFrom(keep, base)[k] - base]
  {
    FilterLength(xs[1..], keep[1..], base + 1);
    if !keep[0] {
      FilterAt(xs[1..], keep[1..], base + 1, k);
    } else if k > 0 {
      FilterAt(xs[1..], keep[1..], base + 1, k - 1);
    }
  }

  /** A filter picks exactly what is marked. */
  lemma FilterPicks<T>(xs: seq<T>, keep: seq<bool>) returns (idx: seq<nat>)
    requires |xs| == |keep|
    ensures Picks(xs, idx, Filter(xs, keep))
    ensures forall i :: 0 <= i < |xs| ==> (i in idx <==> keep[i])
  {
    idx := PositionsFrom(keep, 0);
    PositionsAscend(keep, 0);
    FilterLength(xs, keep, 0);
    forall k | 0 <= k < |idx| ensures Filter(xs, keep)[k] == xs[idx[k]] {
      FilterAt(xs, keep, 0, k);
    }
    forall i | 0 <= i < |xs| ensures i in idx <==> keep[i] {
      PositionsAreMarked(keep, 0, i);
    }
  }

  function Marks<T>(xs: seq<T>, f: T -> bool): seq<bool> {
    seq(|xs|, i requires 0 <= i < |xs| => f(xs[i]))
  }

  lemma {:induction false} FilterAppend<T>(xs: seq<T>, keep: seq<bool>, x: T, b: bool)
    requires |xs| == |keep|
    ensures Filter(xs + [x], keep + [b]) == Filter(xs, keep) + (if b then [x] else [])
  {
    if xs != [] {
      assert (xs + [x])[1..] == xs[1..] + [x] && (keep + [b])[1..] == keep[1..] + [b];
      FilterAppend(xs[1..], keep[1..], x, b);
    }
  }

  lemma FilterStep<T>(xs: seq<T>, f: T -> bool)
    requires xs != []
    ensures Filter(xs, Marks(xs, f)) == (if f(xs[0]) then [xs[0]] else []) + Filter(xs[1..], Marks(xs[1..], f))
  {
    assert Marks(xs, f)[1..] == Marks(xs[1..], f);
  }

  /** A choice out of a choice is a choice. */
  function Through(outer: seq<nat>, inner: seq<nat>): seq<nat>
    requires forall a :: 0 <= a < |inner| ==> inner[a] < |outer|
  {
    seq(|inner|, a requires 0 <= a < |inner| => outer[inner[a]])
  }

  lemma PicksThrough<T>(xs: seq<T>, outer: seq<nat>, ys: seq<T>, inner: seq<nat>, zs: seq<T>)
    requires Picks(xs, outer, ys) && Picks(ys, inner, zs)
    ensures Picks(xs, Through(outer, inner), zs)
    ensures forall i :: i in Through(outer, inner) <==> exists a :: 0 <= a < |outer| && outer[a] == i && a in inner
  {
    var idx := Through(outer, inner);
    forall i ensures i in idx <==> exists a :: 0 <= a < |outer| && outer[a] == i && a in inner {
      if i in idx {
        var k :| 0 <= k < |idx| && idx[k] == i;
        assert inner[k] in inner;
      }
      if a :| 0 <= a < |outer| && outer[a] == i && a in inner {
        var k :| 0 <= k < |inner| && inner[k] == a;
        assert idx[k] == i;
      }
    }
  }
}
