/**
 * The `Filter` trait of `src/fatty_acid/polars/expr/filter.rs`: the
 * enoic classes and SFA/UFA/MUFA/PUFA, all testing the number of bonds;
 * `ui`, the bond-count-weighted sum; `tfa`; and which rows feed each term
 * of the composite indices `ia`, `it`, `hh`, `hpi` and `flq`.
 */
module Indices {
  import opened Wrappers
  import opened Expressions
  import opened Find

  function Monoenoics(r: Row): Option<bool> { EqLit(Unsaturated(r), 1) }
  function Dienoics(r: Row): Option<bool> { EqLit(Unsaturated(r), 2) }
  function Trienoics(r: Row): Option<bool> { EqLit(Unsaturated(r), 3) }
  function Tetraenoics(r: Row): Option<bool> { EqLit(Unsaturated(r), 4) }
  function Pentaenoics(r: Row): Option<bool> { EqLit(Unsaturated(r), 5) }
  function Hexaenoics(r: Row): Option<bool> { EqLit(Unsaturated(r), 6) }

  /** `sfa`: no bonds. */
  function Sfa(r: Row): Option<bool> { EqLit(Unsaturated(r), 0) }
  /** `ufa`: at least one bond. */
  function Ufa(r: Row): Option<bool> { NeqLit(Unsaturated(r), 0) }
  /** `mufa`: exactly one bond. */
  function Mufa(r: Row): Option<bool> { EqLit(Unsaturated(r), 1) }
  /** `pufa`: more than one bond. */
  function Pufa(r: Row): Option<bool> { GtLit(Unsaturated(r), 1) }
  /** `tfa`: 18 carbons and three bonds. */
  function Tfa(r: Row): Option<bool> { And(EqLit(Carbons(r), 18), EqLit(Unsaturated(r), 3)) }

  /** Rows whose bond list is present: the rows every class mask has a non-null value on. */
  function HasBonds(r: Row): Option<bool> { Some(r.unsaturation.Some?) }

  /** SFA and UFA partition the rows that have a bond list; when all rows have one, the whole profile. */
  lemma SfaUfaPartition(p: Profile)
    ensures |Filter(p, Sfa)| + |Filter(p, Ufa)| == |Filter(p, HasBonds)|
    ensures Sum(Filter(p, Sfa)) + Sum(Filter(p, Ufa)) == Sum(Filter(p, HasBonds))
    ensures Filter(Filter(p, Sfa), Ufa) == []
    ensures (forall k :: 0 <= k < |p| ==> p[k].row.unsaturation.Some?) ==>
              |Filter(p, Sfa)| + |Filter(p, Ufa)| == |p| && Sum(Filter(p, Sfa)) + Sum(Filter(p, Ufa)) == Sum(p)
  {
    FilterPartition(p, Sfa, Ufa, HasBonds);
    FilterDisjoint(p, Sfa, Ufa);
    if forall k :: 0 <= k < |p| ==> p[k].row.unsaturation.Some? {
      FilterAll(p, HasBonds);
    }
  }

  /** A mask passing every row of the profile keeps it whole. */
  lemma {:induction false} FilterAll(p: Profile, m: Mask)
    requires forall k :: 0 <= k < |p| ==> Feeds(m, p[k].row)
    ensures Filter(p, m) == p
  {
    if p != [] {
      assert forall k :: 0 <= k < |p[1..]| ==> p[1..][k] == p[k + 1];
      FilterAll(p[1..], m);
      assert p == [p[0]] + p[1..];
    }
  }

  /** MUFA and PUFA are disjoint and together make up UFA. */
  lemma MufaPufaSplitUfa(p: Profile)
    ensures multiset(Filter(p, Ufa)) == multiset(Filter(p, Mufa)) + multiset(Filter(p, Pufa))
    ensures Sum(Filter(p, Ufa)) == Sum(Filter(p, Mufa)) + Sum(Filter(p, Pufa))
    ensures Filter(Filter(p, Mufa), Pufa) == []
  {
    FilterPartition(p, Mufa, Pufa, Ufa);
    FilterDisjoint(p, Mufa, Pufa);
  }

  /** Monoenoics are MUFA; dienoics to hexaenoics all lie within PUFA. */
  lemma EnoicClasses(p: Profile)
    ensures Filter(p, Monoenoics) == Filter(p, Mufa)
    ensures Filter(p, Dienoics) == Filter(Filter(p, Pufa), Dienoics)
    ensures Filter(p, Trienoics) == Filter(Filter(p, Pufa), Trienoics)
    ensures Filter(p, Tetraenoics) == Filter(Filter(p, Pufa), Tetraenoics)
    ensures Filter(p, Pentaenoics) == Filter(Filter(p, Pufa), Pentaenoics)
    ensures Filter(p, Hexaenoics) == Filter(Filter(p, Pufa), Hexaenoics)
  {
    FilterSame(p, Monoenoics, Mufa);
    FilterSubset(p, Dienoics, Pufa);
    FilterSubset(p, Trienoics, Pufa);
    FilterSubset(p, Tetraenoics, Pufa);
    FilterSubset(p, Pentaenoics, Pufa);
    FilterSubset(p, Hexaenoics, Pufa);
  }

  /** The classes count bonds, not their degree: one Two bond is monoenoic and MUFA, and not saturated. */
  lemma ClassesCountBonds()
    ensures var r := Row(Some(18), Some([Some(2)]));
            Feeds(Monoenoics, r) && Feeds(Mufa, r) && !Feeds(Dienoics, r) && !Feeds(Pufa, r)
            && Saturated(r) == Some(false) && Unsaturation(r) == Some(2)
  {
    var xs: seq<Option<int>> := [Some(2)];
    assert xs[..0] == [];
  }

  /** The structural `Find` filters of saturated acids select SFA rows; C18:1 selects MUFA rows. */
  lemma FindWithinClasses(p: Profile)
    ensures Filter(p, C12U0) == Filter(Filter(p, Sfa), C12U0)
    ensures Filter(p, C14U0) == Filter(Filter(p, Sfa), C14U0)
    ensures Filter(p, C16U0) == Filter(Filter(p, Sfa), C16U0)
    ensures Filter(p, C18U0) == Filter(Filter(p, Sfa), C18U0)
    ensures Filter(p, C18U1) == Filter(Filter(p, Mufa), C18U1)
  {
    FilterSubset(p, C12U0, Sfa);
    FilterSubset(p, C14U0, Sfa);
    FilterSubset(p, C16U0, Sfa);
    FilterSubset(p, C18U0, Sfa);
    FilterSubset(p, C18U1, Mufa);
  }

  /** `tfa` selects the same rows as C18:3, whatever the isomers. */
  lemma TfaIsC18U3(p: Profile)
    ensures Filter(p, Tfa) == Filter(p, C18U3Z9Z12Z15)
  {
    FilterSame(p, Tfa, C18U3Z9Z12Z15);
  }

  // ---------------------------------------------------------------------
  // Unsaturation index

  /** One row's term of `(unsaturated() * expr).sum()`: bond count times value, nothing when either is null. */
  function UiTerm(e: Entry): real {
    match (Unsaturated(e.row), e.value)
    case (Some(n), Some(v)) => (n as real) * v
    case _ => 0.0
  }

  /** `ui`: the bond-count-weighted sum of the values. */
  function Ui(p: Profile): real {
    if p == [] then 0.0 else UiTerm(p[0]) + Ui(p[1..])
  }

  /** Saturated rows contribute nothing to `ui`. */
  lemma {:induction false} UiOfSfa(p: Profile)
    ensures Ui(Filter(p, Sfa)) == 0.0
  {
    if p != [] {
      UiOfSfa(p[1..]);
      var rest := Filter(p[1..], Sfa);
      if Feeds(Sfa, p[0].row) {
        assert ([p[0]] + rest)[1..] == rest;
      }
    }
  }

  /** The classes weighted by their bond counts, as the unsaturation index is defined. */
  function EnoicWeighted(p: Profile): real {
    Sum(Filter(p, Monoenoics)) + 2.0 * Sum(Filter(p, Dienoics)) + 3.0 * Sum(Filter(p, Trienoics))
    + 4.0 * Sum(Filter(p, Tetraenoics)) + 5.0 * Sum(Filter(p, Pentaenoics)) + 6.0 * Sum(Filter(p, Hexaenoics))
  }

  /** Every row has at most six bonds. */
  predicate AtMostSixBonds(p: Profile) {
    forall k :: 0 <= k < |p| ==> Unsaturated(p[k].row).Some? ==> Unsaturated(p[k].row).value <= 6
  }

  /**
   * With at most six bonds per row, `ui` is `1·Σmonoenoics + 2·Σdienoics
   * + … + 6·Σhexaenoics`, the unsaturation index as documented.
   */
  lemma {:induction false} UiIsEnoicWeighted(p: Profile)
    requires AtMostSixBonds(p)
    ensures Ui(p) == EnoicWeighted(p)
  {
    if p != [] {
      var x, rest := p[0], p[1..];
      assert AtMostSixBonds(rest) by {
        forall k | 0 <= k < |rest| ensures Unsaturated(rest[k].row).Some? ==> Unsaturated(rest[k].row).value <= 6 {
          assert rest[k] == p[k + 1];
        }
      }
      UiIsEnoicWeighted(rest);
      assert p == [x] + rest;
      EnoicStep(x, rest);
    }
  }

  /** Adding one row adds its `ui` term to the weighted sum of the classes. */
  lemma EnoicStep(x: Entry, rest: Profile)
    requires Unsaturated(x.row).Some? ==> Unsaturated(x.row).value <= 6
    ensures EnoicWeighted([x] + rest) == UiTerm(x) + EnoicWeighted(rest)
  {
    var masks := [Monoenoics, Dienoics, Trienoics, Tetraenoics, Pentaenoics, Hexaenoics];
    forall i | 0 <= i < 6
      ensures Sum(Filter([x] + rest, masks[i])) ==
              (if Feeds(masks[i], x.row) then ValueOf(x) else 0.0) + Sum(Filter(rest, masks[i]))
    {
      FilterCons(x, rest, masks[i]);
      if Feeds(masks[i], x.row) {
        SumCons(x, Filter(rest, masks[i]));
      }
    }
    assert masks[0] == Monoenoics && masks[1] == Dienoics && masks[2] == Trienoics;
    assert masks[3] == Tetraenoics && masks[4] == Pentaenoics && masks[5] == Hexaenoics;
  }

  // ---------------------------------------------------------------------
  // Which rows feed the composite indices

  /** `ia`'s numerator rows: C12:0, C14:0, C16:0; its denominator is UFA. */
  function IaNumerator(r: Row): Option<bool> { Some(Feeds(C12U0, r) || Feeds(C14U0, r) || Feeds(C16U0, r)) }
  function IaDenominator(r: Row): Option<bool> { Ufa(r) }

  /** `it`'s numerator rows: C14:0, C16:0, C18:0; its denominator is `0.5 * UFA + 0.5`. */
  function ItNumerator(r: Row): Option<bool> { Some(Feeds(C14U0, r) || Feeds(C16U0, r) || Feeds(C18U0, r)) }
  function ItDenominator(r: Row): Option<bool> { Ufa(r) }

  /** `hh`'s numerator rows: C18:1 and PUFA; its denominator rows: C12:0, C14:0, C16:0. */
  function HhNumerator(r: Row): Option<bool> { Some(Feeds(C18U1, r) || Feeds(Pufa, r)) }
  function HhDenominator(r: Row): Option<bool> { Some(Feeds(C12U0, r) || Feeds(C14U0, r) || Feeds(C16U0, r)) }

  /** `hpi` is `ia` turned over. */
  function HpiNumerator(r: Row): Option<bool> { Ufa(r) }
  function HpiDenominator(r: Row): Option<bool> { Some(Feeds(C12U0, r) || Feeds(C14U0, r) || Feeds(C16U0, r)) }

  /** `flq`'s numerator rows: EPA and DHA; its denominator sums every row. */
  function FlqNumerator(r: Row): Option<bool> { Some(Feeds(Eicosapentaenoic, r) || Feeds(Docosahexaenoic, r)) }

  /**
   * The numerator and denominator of `ia`, `hh` and `hpi` are fed by
   * disjoint rows: their saturated terms are SFA rows, the others UFA
   * rows; `hpi` uses `ia`'s rows with the roles swapped; `it`'s
   * numerator is SFA and disjoint from its UFA denominator; `flq`'s numerator is two disjoint sets.
   */
  lemma IndexRowSets(p: Profile)
    ensures Filter(Filter(p, IaNumerator), IaDenominator) == []
    ensures Filter(p, IaNumerator) == Filter(Filter(p, Sfa), IaNumerator)
    ensures Filter(Filter(p, HhNumerator), HhDenominator) == []
    ensures Filter(Filter(p, HpiNumerator), HpiDenominator) == []
    ensures Filter(p, HpiNumerator) == Filter(p, IaDenominator) && Filter(p, HpiDenominator) == Filter(p, IaNumerator)
    ensures Filter(p, ItNumerator) == Filter(Filter(p, Sfa), ItNumerator)
    ensures Filter(Filter(p, ItNumerator), ItDenominator) == []
    ensures multiset(Filter(p, FlqNumerator)) == multiset(Filter(p, Eicosapentaenoic)) + multiset(Filter(p, Docosahexaenoic))
  {
    FilterDisjoint(p, IaNumerator, IaDenominator);
    FilterSubset(p, IaNumerator, Sfa);
    FilterDisjoint(p, HhNumerator, HhDenominator);
    FilterDisjoint(p, HpiNumerator, HpiDenominator);
    FilterSame(p, HpiNumerator, IaDenominator);
    FilterSame(p, HpiDenominator, IaNumerator);
    FilterSubset(p, ItNumerator, Sfa);
    FilterDisjoint(p, ItNumerator, ItDenominator);
    FilterPartition(p, Eicosapentaenoic, Docosahexaenoic, FlqNumerator);
  }
}
