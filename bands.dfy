// First-match lookups over the ordered tables the analysis backend reads:
// rank tables keyed by a closed integer band, and the Leetify tier table
// keyed by tier name with a closed real range. In the backend these are
// Python dicts, iterated in insertion order, so they are modelled here as
// sequences of entries in that order.
module Bands {
  import opened Wrappers

  /** A closed integer interval `(low, high)`, the key of a rank table row. */
  datatype Band = Band(low: int, high: int)

  predicate Contains(b: Band, x: int) {
    b.low <= x <= b.high
  }

  /** The first index at or after `from` whose band contains `x`. */
  function FirstContainingFrom<V>(t: seq<(Band, V)>, x: int, from: nat): (r: Option<nat>)
    requires from <= |t|
    decreases |t| - from
    ensures r.Some? ==> from <= r.value < |t| && Contains(t[r.value].0, x)
    ensures r.Some? ==> forall j :: from <= j < r.value ==> !Contains(t[j].0, x)
    ensures r.None? <==> forall j :: from <= j < |t| ==> !Contains(t[j].0, x)
  {
    if from == |t| then None
    else if Contains(t[from].0, x) then Some(from)
    else FirstContainingFrom(t, x, from + 1)
  }

  function FirstContaining<V>(t: seq<(Band, V)>, x: int): Option<nat> {
    FirstContainingFrom(t, x, 0)
  }

  /** The first index at or after `from` whose band is exactly `(low, high)`. */
  function FirstWithBoundsFrom<V>(t: seq<(Band, V)>, low: int, high: int, from: nat): (r: Option<nat>)
    requires from <= |t|
    decreases |t| - from
    ensures r.Some? ==> from <= r.value < |t| && t[r.value].0 == Band(low, high)
    ensures r.Some? ==> forall j :: from <= j < r.value ==> t[j].0 != Band(low, high)
    ensures r.None? <==> forall j :: from <= j < |t| ==> t[j].0 != Band(low, high)
  {
    if from == |t| then None
    else if t[from].0.low == low && t[from].0.high == high then Some(from)
    else FirstWithBoundsFrom(t, low, high, from + 1)
  }

  function FirstWithBounds<V>(t: seq<(Band, V)>, low: int, high: int): Option<nat> {
    FirstWithBoundsFrom(t, low, high, 0)
  }

  // ---------------------------------------------------------------------
  // Tier tables

  /** A tier table entry: the tier's name and its closed range `(low, high)`. */
  type TierTable = seq<(string, (real, real))>

  predicate InRange(range: (real, real), v: real) {
    range.0 <= v <= range.1
  }

  /** The first tier index at or after `from` whose range contains `v`. */
  function TierIndexFrom(t: TierTable, v: real, from: nat): (r: Option<nat>)
    requires from <= |t|
    decreases |t| - from
    ensures r.Some? ==> from <= r.value < |t| && InRange(t[r.value].1, v)
    ensures r.Some? ==> forall j :: from <= j < r.value ==> !InRange(t[j].1, v)
    ensures r.None? <==> forall j :: from <= j < |t| ==> !InRange(t[j].1, v)
  {
    if from == |t| then None
    else if InRange(t[from].1, v) then Some(from)
    else TierIndexFrom(t, v, from + 1)
  }

  function TierIndex(t: TierTable, v: real): Option<nat> {
    TierIndexFrom(t, v, 0)
  }

  const Unknown: string := "unknown"

  /** The name of the first tier whose range contains `v`, or "unknown". */
  function TierOf(t: TierTable, v: real): (name: string)
    ensures (forall i :: 0 <= i < |t| ==> !InRange(t[i].1, v)) ==> name == Unknown
    ensures forall i :: 0 <= i < |t| && InRange(t[i].1, v) && (forall j :: 0 <= j < i ==> !InRange(t[j].1, v))
                        ==> name == t[i].0
  {
    match TierIndex(t, v)
    case Some(i) => t[i].0
    case None => Unknown
  }

  // ---------------------------------------------------------------------
  // Tables of adjacent bands

  /**
   * Every band is non-empty and each band starts right after the previous
   * one ends: the bands are ascending and leave no gap.
   */
  predicate Adjacent<V>(t: seq<(Band, V)>) {
    (forall i :: 0 <= i < |t| ==> t[i].0.low <= t[i].0.high) &&
    (forall i :: 0 < i < |t| ==> t[i].0.low == t[i - 1].0.high + 1)
  }

  /** In an adjacent table an earlier band ends before a later one starts. */
  lemma {:induction false} AdjacentSeparated<V>(t: seq<(Band, V)>, j: nat, k: nat)
    requires Adjacent(t) && j < k < |t|
    ensures t[j].0.high < t[k].0.low
    decreases k - j
  {
    if j + 1 < k {
      AdjacentSeparated(t, j, k - 1);
      assert t[k - 1].0.low <= t[k - 1].0.high;
    }
  }

  /** Hence no value lies in two bands of an adjacent table. */
  lemma AdjacentDisjoint<V>(t: seq<(Band, V)>, j: nat, k: nat, x: int)
    requires Adjacent(t) && j < |t| && k < |t| && j != k
    ensures !(Contains(t[j].0, x) && Contains(t[k].0, x))
  {
    if j < k { AdjacentSeparated(t, j, k); } else { AdjacentSeparated(t, k, j); }
  }

  /** An adjacent table covers every value from its first low to its last high. */
  lemma {:induction false} AdjacentCovers<V>(t: seq<(Band, V)>, x: int)
    requires Adjacent(t) && |t| > 0 && t[0].0.low <= x <= t[|t| - 1].0.high
    ensures exists i :: 0 <= i < |t| && Contains(t[i].0, x)
  {
    if x > t[0].0.high {
      var u := t[1..];
      assert Adjacent(u) by {
        forall i | 0 < i < |u| ensures u[i].0.low == u[i - 1].0.high + 1 {
          assert u[i] == t[i + 1] && u[i - 1] == t[i];
        }
      }
      assert u[0] == t[1] && u[|u| - 1] == t[|t| - 1];
      AdjacentCovers(u, x);
      var i :| 0 <= i < |u| && Contains(u[i].0, x);
      assert u[i] == t[i + 1];
    } else {
      assert Contains(t[0].0, x);
    }
  }

  /**
   * For any value inside an adjacent table's span, first-match lookup finds
   * the one band that contains it.
   */
  lemma UniqueBand<V>(t: seq<(Band, V)>, x: int)
    requires Adjacent(t) && |t| > 0 && t[0].0.low <= x <= t[|t| - 1].0.high
    ensures FirstContaining(t, x).Some?
    ensures forall j :: 0 <= j < |t| && Contains(t[j].0, x) ==> j == FirstContaining(t, x).value
  {
    AdjacentCovers(t, x);
    var i := FirstContaining(t, x).value;
    forall j | 0 <= j < |t| && Contains(t[j].0, x) ensures j == i {
      if j != i { AdjacentDisjoint(t, i, j, x); }
    }
  }

  /** Outside an adjacent table's span no band matches. */
  lemma OutsideSpan<V>(t: seq<(Band, V)>, x: int)
    requires Adjacent(t) && |t| > 0 && (x < t[0].0.low || x > t[|t| - 1].0.high)
    ensures FirstContaining(t, x).None?
  {
    forall j | 0 <= j < |t| ensures !Contains(t[j].0, x) {
      if 0 < j { AdjacentSeparated(t, 0, j); }
      if j < |t| - 1 { AdjacentSeparated(t, j, |t| - 1); }
    }
  }
}
