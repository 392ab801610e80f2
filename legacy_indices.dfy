/**
 * The older `Indices` and `Single` traits of `src/polars/expr/fatty_acid.rs`.
 * Their SFA/UFA/MUFA/PUFA, `ia`/`it`/`hh`/`hpi` and per-row formulas are
 * the same expressions as in modules `Expressions`, `Find` and
 * `Indices`; what differs is `Single`: its `epa` and `dha` have their
 * carbon and bond counts swapped relative to the acids' names.
 */
module LegacyIndices {
  import opened Wrappers
  import opened Expressions
  import Find
  import Indices

  /** `epa`: 22 carbons and 6 bonds (the structure of DHA). */
  function Epa(r: Row): Option<bool> { Find.CarbonsAndCount(22, 6, r) }
  /** `dha`: 20 carbons and 5 bonds (the structure of EPA). */
  function Dha(r: Row): Option<bool> { Find.CarbonsAndCount(20, 5, r) }
  /** `la`: 18 carbons and 2 bonds. */
  function La(r: Row): Option<bool> { Find.CarbonsAndCount(18, 2, r) }
  /** `ala`: 18 carbons and 3 bonds. */
  function Ala(r: Row): Option<bool> { Find.CarbonsAndCount(18, 3, r) }
  /** `tfa`: 18 carbons and 3 bonds. */
  function Tfa(r: Row): Option<bool> { And(EqLit(Carbons(r), 18), EqLit(Unsaturated(r), 3)) }

  /** `flq`'s numerator rows: `epa` and `dha`. */
  function FlqNumerator(r: Row): Option<bool> { Some(Feeds(Epa, r) || Feeds(Dha, r)) }

  /**
   * `epa` selects the rows of the newer `docosahexaenoic` and `dha` those
   * of `eicosapentaenoic`; the two never select the same row.
   */
  lemma EpaDhaSwapped(p: Profile)
    ensures Filter(p, Epa) == Filter(p, Find.Docosahexaenoic)
    ensures Filter(p, Dha) == Filter(p, Find.Eicosapentaenoic)
    ensures Filter(Filter(p, Epa), Dha) == []
    ensures Feeds(Epa, Row(Some(22), Some([Some(1), Some(1), Some(1), Some(1), Some(1), Some(1)])))
    ensures !Feeds(Epa, Row(Some(20), Some([Some(1), Some(1), Some(1), Some(1), Some(1)])))
  {
    FilterSame(p, Epa, Find.Docosahexaenoic);
    FilterSame(p, Dha, Find.Eicosapentaenoic);
    FilterDisjoint(p, Epa, Dha);
  }

  /** The swap cancels out in `flq`: its numerator rows are those of the newer `flq`. */
  lemma FlqNumeratorUnchanged(p: Profile)
    ensures Filter(p, FlqNumerator) == Filter(p, Indices.FlqNumerator)
  {
    FilterSame(p, FlqNumerator, Indices.FlqNumerator);
  }

  /** `tfa` and `ala` select the same rows, those of the newer `alpha_linolenic`; `la` is `linoleic`. */
  lemma TfaIsAla(p: Profile)
    ensures Filter(p, Tfa) == Filter(p, Ala)
    ensures Filter(p, Ala) == Filter(p, Find.AlphaLinolenic)
    ensures Filter(p, La) == Filter(p, Find.Linoleic)
    ensures Filter(p, Tfa) == Filter(p, Indices.Tfa)
  {
    FilterSame(p, Tfa, Ala);
    FilterSame(p, Ala, Find.AlphaLinolenic);
    FilterSame(p, La, Find.Linoleic);
    FilterSame(p, Tfa, Indices.Tfa);
  }
}
