/**
 * The per-row formulas of `src/fatty_acid/polars/expr/mod.rs` (and their
 * trait-based copies in `src/fatty_acid/polars/expr/fatty_acid.rs` and
 * `src/polars/expr/fatty_acid.rs`, which compose the same expressions),
 * together with the query-engine operations they are used with: `filter`
 * by a boolean mask and `sum`.
 *
 * A row is what the expressions read: the `Carbons` cell and, for the
 * `Unsaturated` list, the list of its bonds' `Unsaturation` cells. Null
 * propagates through arithmetic and comparisons; `list.len` counts every
 * element, null ones included; `list.sum` and `sum` skip nulls. Integer
 * arithmetic is unbounded here.
 */
module Expressions {
  import opened Wrappers

  datatype Row = Row(carbons: Option<int>, unsaturation: Option<seq<Option<int>>>)

  /** `carbons()`: the `Carbons` field. */
  function Carbons(r: Row): Option<int> {
    r.carbons
  }

  /** `unsaturated()`: the number of bonds in the row's list, null for a null list. */
  function Unsaturated(r: Row): (n: Option<int>)
    ensures n.Some? <==> r.unsaturation.Some?
    ensures n.Some? ==> n.value == |r.unsaturation.value| && n.value >= 0
  {
    match r.unsaturation
    case None => None
    case Some(xs) => Some(|xs|)
  }

  /** `list.sum` of one list: the non-null values added up, 0 for an empty list. */
  function ListSum(xs: seq<Option<int>>): int {
    if xs == [] then 0
    else ListSum(xs[..|xs| - 1]) + (if xs[|xs| - 1].Some? then xs[|xs| - 1].value else 0)
  }

  /** Unsaturation values as the records write them: every bond has one, and it is 1 or 2. */
  predicate Degrees12(xs: seq<Option<int>>) {
    forall k :: 0 <= k < |xs| ==> xs[k] == Some(1) || xs[k] == Some(2)
  }

  /** Between one and two per bond when every value is 1 or 2; zero exactly when every value is null or 0. */
  lemma {:induction false} ListSumBounds(xs: seq<Option<int>>)
    ensures Degrees12(xs) ==> |xs| <= ListSum(xs) <= 2 * |xs|
    ensures (forall k :: 0 <= k < |xs| ==> xs[k].None? || xs[k].value >= 0) ==>
              (ListSum(xs) == 0 <==> forall k :: 0 <= k < |xs| ==> xs[k].None? || xs[k].value == 0)
  {
    if xs != [] {
      var init := xs[..|xs| - 1];
      ListSumBounds(init);
      assert forall k :: 0 <= k < |init| ==> init[k] == xs[k];
      if forall k :: 0 <= k < |xs| ==> xs[k].None? || xs[k].value >= 0 {
        assert forall k :: 0 <= k < |init| ==> init[k].None? || init[k].value >= 0;
        ListSumNonNegative(init);
      }
    }
  }

  lemma {:induction false} ListSumNonNegative(xs: seq<Option<int>>)
    requires forall k :: 0 <= k < |xs| ==> xs[k].None? || xs[k].value >= 0
    ensures ListSum(xs) >= 0
  {
    if xs != [] {
      var init := xs[..|xs| - 1];
      assert forall k :: 0 <= k < |init| ==> init[k] == xs[k];
      ListSumNonNegative(init);
    }
  }

  /** `unsaturation()`: the sum of the bonds' Unsaturation values, null for a null list. */
  function Unsaturation(r: Row): (u: Option<int>)
    ensures u.Some? <==> r.unsaturation.Some?
  {
    match r.unsaturation
    case None => None
    case Some(xs) => Some(ListSum(xs))
  }

  /** `bounds()`: `(carbons - 1).clip_min(0)`. */
  function Bounds(r: Row): (b: Option<int>)
    ensures b.Some? <==> r.carbons.Some?
    ensures b.Some? ==> b.value >= 0 && (r.carbons.value >= 1 ==> b.value + 1 == r.carbons.value)
    ensures b.Some? && r.carbons.value <= 0 ==> b.value == 0
  {
    match Carbons(r)
    case None => None
    case Some(c) => Some(if c - 1 < 0 then 0 else c - 1)
  }

  /** `ecn()`: `carbons - 2 * unsaturation`. */
  function Ecn(r: Row): (e: Option<int>)
    ensures e.Some? <==> r.carbons.Some? && r.unsaturation.Some?
  {
    match (Carbons(r), Unsaturation(r))
    case (Some(c), Some(u)) => Some(c - 2 * u)
    case _ => None
  }

  /** `hydrogens()`: `2 * carbons - 2 * unsaturation`. */
  function Hydrogens(r: Row): (h: Option<int>)
    ensures h.Some? <==> r.carbons.Some? && r.unsaturation.Some?
  {
    match (Carbons(r), Unsaturation(r))
    case (Some(c), Some(u)) => Some(2 * c - 2 * u)
    case _ => None
  }

  /** `saturated()`: `unsaturation == 0`, on the weighted sum. */
  function Saturated(r: Row): (s: Option<bool>)
    ensures s.Some? <==> r.unsaturation.Some?
  {
    match Unsaturation(r)
    case None => None
    case Some(u) => Some(u == 0)
  }

  /**
   * The formulas fit together as the chemistry says: hydrogens less ECN is
   * the carbon count, and a row is saturated exactly when its hydrogens are
   * twice its carbons, or its ECN equals its carbons.
   */
  lemma FormulasAgree(r: Row)
    requires r.carbons.Some? && r.unsaturation.Some?
    ensures Hydrogens(r).value - Ecn(r).value == Carbons(r).value
    ensures Hydrogens(r).value == 2 * Carbons(r).value - 2 * Unsaturation(r).value
    ensures Saturated(r).value <==> Hydrogens(r).value == 2 * Carbons(r).value
    ensures Saturated(r).value <==> Ecn(r).value == Carbons(r).value
  {
  }

  /**
   * `saturated()` tests the weighted sum, not the bond count: when every
   * bond is 1 or 2 they agree, but a bond with a null value counts as a
   * bond and adds nothing to the sum.
   */
  lemma SaturatedVersusCount(r: Row)
    ensures r.unsaturation.Some? && Degrees12(r.unsaturation.value) ==>
              (Saturated(r) == Some(true) <==> Unsaturated(r) == Some(0))
    ensures var odd := Row(Some(18), Some([None]));
            ListSum([None]) == 0 && Saturated(odd) == Some(true) && Unsaturated(odd) == Some(1)
  {
    if r.unsaturation.Some? && Degrees12(r.unsaturation.value) {
      ListSumBounds(r.unsaturation.value);
    }
    var none: seq<Option<int>> := [None];
    assert none[..0] == [];
  }

  // ---------------------------------------------------------------------
  // Comparisons and masks, with the engine's three-valued logic

  /** `x.eq(lit(n))`: null stays null. */
  function EqLit(x: Option<int>, n: int): Option<bool> {
    if x.Some? then Some(x.value == n) else None
  }

  /** `x.neq(lit(n))`. */
  function NeqLit(x: Option<int>, n: int): Option<bool> {
    if x.Some? then Some(x.value != n) else None
  }

  /** `x.gt(lit(n))`. */
  function GtLit(x: Option<int>, n: int): Option<bool> {
    if x.Some? then Some(x.value > n) else None
  }

  /** `a.and(b)`: Kleene conjunction; false wins over null. */
  function And(a: Option<bool>, b: Option<bool>): (r: Option<bool>)
    ensures r == Some(true) <==> a == Some(true) && b == Some(true)
    ensures r == Some(false) <==> a == Some(false) || b == Some(false)
  {
    if a == Some(false) || b == Some(false) then Some(false)
    else if a == Some(true) && b == Some(true) then Some(true)
    else None
  }

  type Mask = Row -> Option<bool>

  /** A row passes a filter only when the mask is true on it; false and null both drop it. */
  predicate Feeds(m: Mask, r: Row) {
    m(r) == Some(true)
  }

  /** A value column next to the rows it belongs to. */
  datatype Entry = Entry(row: Row, value: Option<real>)

  type Profile = seq<Entry>

  /** `expr.filter(mask)`: the entries whose row passes, in their order. */
  function Filter(p: Profile, m: Mask): (q: Profile)
    ensures |q| <= |p|
    ensures forall k :: 0 <= k < |q| ==> Feeds(m, q[k].row)
  {
    if p == [] then []
    else
      var rest := Filter(p[1..], m);
      if Feeds(m, p[0].row) then [p[0]] + rest else rest
  }

  /** `expr.sum()`: the non-null values added up. */
  function Sum(p: Profile): real {
    if p == [] then 0.0 else ValueOf(p[0]) + Sum(p[1..])
  }

  function ValueOf(e: Entry): real {
    if e.value.Some? then e.value.value else 0.0
  }

  lemma FilterCons(x: Entry, p: Profile, m: Mask)
    ensures Filter([x] + p, m) == (if Feeds(m, x.row) then [x] else []) + Filter(p, m)
  {
    assert ([x] + p)[1..] == p;
  }

  lemma SumCons(x: Entry, p: Profile)
    ensures Sum([x] + p) == ValueOf(x) + Sum(p)
  {
    assert ([x] + p)[1..] == p;
  }

  /** The filter keeps every passing entry as often as it occurs and drops every other one. */
  lemma {:induction false} FilterCounts(p: Profile, m: Mask, e: Entry)
    ensures multiset(Filter(p, m))[e] == if Feeds(m, e.row) then multiset(p)[e] else 0
  {
    if p != [] {
      FilterCounts(p[1..], m, e);
      assert p == [p[0]] + p[1..];
    }
  }

  /**
   * Two masks that never both pass a row, and together pass exactly the
   * rows of a third, split that third's selection: its entries, their
   * number and their sum.
   */
  lemma {:induction false} FilterPartition(p: Profile, m1: Mask, m2: Mask, m: Mask)
    requires forall r :: Feeds(m, r) <==> Feeds(m1, r) || Feeds(m2, r)
    requires forall r :: !(Feeds(m1, r) && Feeds(m2, r))
    ensures multiset(Filter(p, m)) == multiset(Filter(p, m1)) + multiset(Filter(p, m2))
    ensures |Filter(p, m)| == |Filter(p, m1)| + |Filter(p, m2)|
    ensures Sum(Filter(p, m)) == Sum(Filter(p, m1)) + Sum(Filter(p, m2))
  {
    if p != [] {
      var x, rest := p[0], p[1..];
      FilterPartition(rest, m1, m2, m);
      assert p == [x] + rest;
      FilterCons(x, rest, m);
      FilterCons(x, rest, m1);
      FilterCons(x, rest, m2);
      if Feeds(m1, x.row) {
        SumCons(x, Filter(rest, m));
        SumCons(x, Filter(rest, m1));
      } else if Feeds(m2, x.row) {
        SumCons(x, Filter(rest, m));
        SumCons(x, Filter(rest, m2));
      }
    }
  }

  /** Masks that never both pass a row select no entry in common. */
  lemma {:induction false} FilterDisjoint(p: Profile, m1: Mask, m2: Mask)
    requires forall r :: !(Feeds(m1, r) && Feeds(m2, r))
    ensures Filter(Filter(p, m1), m2) == []
  {
    if p != [] {
      var x, rest := p[0], p[1..];
      FilterDisjoint(rest, m1, m2);
      assert p == [x] + rest;
      FilterCons(x, rest, m1);
      if Feeds(m1, x.row) {
        FilterCons(x, Filter(rest, m1), m2);
      }
    }
  }

  /** A mask that passes only rows another passes selects a sub-selection of it. */
  lemma {:induction false} FilterSubset(p: Profile, m1: Mask, m2: Mask)
    requires forall r :: Feeds(m1, r) ==> Feeds(m2, r)
    ensures Filter(p, m1) == Filter(Filter(p, m2), m1)
  {
    if p != [] {
      var x, rest := p[0], p[1..];
      FilterSubset(rest, m1, m2);
      assert p == [x] + rest;
      FilterCons(x, rest, m1);
      FilterCons(x, rest, m2);
      if Feeds(m2, x.row) {
        FilterCons(x, Filter(rest, m2), m1);
      }
    }
  }

  /** Masks passing the same rows select the same entries. */
  lemma {:induction false} FilterSame(p: Profile, m1: Mask, m2: Mask)
    requires forall r :: Feeds(m1, r) <==> Feeds(m2, r)
    ensures Filter(p, m1) == Filter(p, m2)
  {
    if p != [] {
      FilterSame(p[1..], m1, m2);
    }
  }
}
