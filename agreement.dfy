/**
 * The two ways of reading a stored record: materialising it with
 * `FattyAcidSeries::get` and using the scalar `u()`, `h()`, `ecn()`,
 * `s()`, or evaluating the per-row expressions on its columns. They agree
 * when the list is present, there is at least one carbon and every bond
 * stores an unsaturation of 1 or 2; a null unsaturation or a null list
 * makes them part.
 */
module Agreement {
  import opened Wrappers
  import opened Ints
  import opened FattyAcid
  import opened Ordering
  import opened Polars
  import opened SeriesAdapter
  import E = Expressions

  /** The `Unsaturation` cells of a bond list, as `.list().eval(field_by_name("Unsaturation"))` reads them. */
  function UnsaturationCells(child: Series): Option<seq<Option<int>>> {
    match StructFields(child)
    case Err(_) => None
    case Ok(fields) =>
      match FieldByName(fields, "Unsaturation")
      case Ok(UInt8(values)) => Some(values)
      case _ => None
  }

  /** The row the expressions see at `row`: `None` when a column does not have the data type they read. */
  function RowView(fs: FattyAcidSeries, row: nat): (r: Option<E.Row>)
    requires Valid(fs) && row < FattyAcidsLen(fs)
    ensures r.Some? ==> fs.carbons.UInt8? && r.value.carbons == fs.carbons.values[row]
    ensures r.Some? ==> fs.unsaturated.List? && (r.value.unsaturation.None? <==> fs.unsaturated.items[row].None?)
  {
    if !fs.carbons.UInt8? || !fs.unsaturated.List? then None
    else
      match fs.unsaturated.items[row]
      case None => Some(E.Row(fs.carbons.values[row], None))
      case Some(child) =>
        match UnsaturationCells(child)
        case None => None
        case Some(xs) => Some(E.Row(fs.carbons.values[row], Some(xs)))
  }

  /** Bonds decoded from cells of 1 and 2 have those cells as their degrees. */
  lemma {:induction false} DegreesOfCells(bonds: seq<Unsaturated>, xs: seq<Option<int>>)
    requires |bonds| == |xs| && E.Degrees12(xs)
    requires forall k :: 0 <= k < |bonds| ==> Degree(bonds[k]) == xs[k].value
    ensures Degrees(bonds) == E.ListSum(xs)
  {
    if bonds != [] {
      var n := |bonds| - 1;
      assert forall k :: 0 <= k < n ==> bonds[..n][k] == bonds[k] && xs[..n][k] == xs[k];
      DegreesOfCells(bonds[..n], xs[..n]);
      assert bonds == bonds[..n] + [bonds[n]];
    }
  }

  /** The stored cells behind a record's bonds, in stored order. */
  lemma CellsOfRow(fs: FattyAcidSeries, row: nat)
    requires Valid(fs) && row < FattyAcidsLen(fs)
    requires RowBonds(fs, row).Ok? && RowView(fs, row).Some? && RowView(fs, row).value.unsaturation.Some?
    requires E.Degrees12(RowView(fs, row).value.unsaturation.value)
    ensures |RowBonds(fs, row).value| == |RowView(fs, row).value.unsaturation.value|
    ensures Degrees(RowBonds(fs, row).value) == E.ListSum(RowView(fs, row).value.unsaturation.value)
  {
    var child := fs.unsaturated.items[row].value;
    assert WellFormedItem(fs.unsaturated.items[row]);
    NewUnsaturatedCharacterised(child);
    var us := NewUnsaturated(child).value;
    var xs := RowView(fs, row).value.unsaturation.value;
    assert us.unsaturation == FieldByName(child.fields, "Unsaturation").value;
    assert us.unsaturation.values == xs;
    var bonds := RowBonds(fs, row).value;
    assert bonds == DecodeAll(us).value;
    DecodePrefixCharacterised(us, UnsaturatedLen(us));
    forall k | 0 <= k < |bonds| ensures Degree(bonds[k]) == xs[k].value {
      assert GetUnsaturated(us, k) == Ok(bonds[k]);
    }
    DegreesOfCells(bonds, xs);
  }

  /**
   * A record and a row that agree on the carbons (at least one), the bond
   * count and the degree sum agree on every formula, wherever the record's
   * `u8` arithmetic is defined.
   */
  lemma RecordMatchesRow(fa: FattyAcid, r: E.Row)
    requires fa.carbons >= 1 && r.carbons == Some(fa.carbons as int)
    requires E.Unsaturated(r) == Some(|fa.unsaturated|) && E.Unsaturation(r) == Some(Degrees(fa.unsaturated))
    ensures E.Carbons(r) == Some(C(fa) as int) && E.Bounds(r) == Some(B(fa) as int)
    ensures U(fa).Done? ==> E.Unsaturation(r) == Some(U(fa).value as int)
    ensures H(fa).Done? ==> E.Hydrogens(r) == Some(H(fa).value as int)
    ensures Ecn(fa).Done? ==> E.Ecn(r) == Some(Ecn(fa).value as int)
    ensures S(fa).Done? ==> E.Saturated(r) == Some(S(fa).value)
  {
    UIsDegreeSum(fa);
    HydrogensAndEcn(fa);
  }

  /**
   * For a materialised row with carbons >= 1, a present list and every
   * stored unsaturation 1 or 2, the expressions' bond count and
   * unsaturation are the record's, and so (by `RecordMatchesRow`) are its
   * bounds, carbons, hydrogens, ECN and saturation.
   */
  lemma FormulasAgreeWithRecord(fs: FattyAcidSeries, row: nat)
    requires Valid(fs) && row < FattyAcidsLen(fs)
    requires GetSpec(fs, row).Ok? && GetSpec(fs, row).value.Some? && GetSpec(fs, row).value.value.carbons >= 1
    requires RowView(fs, row).Some? && RowView(fs, row).value.unsaturation.Some?
    requires E.Degrees12(RowView(fs, row).value.unsaturation.value)
    ensures var fa, r := GetSpec(fs, row).value.value, RowView(fs, row).value;
            && r.carbons == Some(fa.carbons as int)
            && E.Unsaturated(r) == Some(|fa.unsaturated|)
            && E.Unsaturation(r) == Some(Degrees(fa.unsaturated))
    ensures var fa, r := GetSpec(fs, row).value.value, RowView(fs, row).value;
            && E.Bounds(r) == Some(B(fa) as int)
            && (H(fa).Done? ==> E.Hydrogens(r) == Some(H(fa).value as int))
            && (Ecn(fa).Done? ==> E.Ecn(r) == Some(Ecn(fa).value as int))
            && (S(fa).Done? ==> E.Saturated(r) == Some(S(fa).value))
  {
    var fa := GetSpec(fs, row).value.value;
    var r := RowView(fs, row).value;
    var bonds := RowBonds(fs, row).value;
    CellsOfRow(fs, row);
    SortByCorrect(AdapterKey, bonds);
    SortByDegrees(AdapterKey, bonds);
    assert fa.unsaturated == SortBy(AdapterKey, bonds);
    assert r.carbons == Some(fa.carbons as int);
    RecordMatchesRow(fa, r);
  }

  /**
   * In the model's unbounded expression arithmetic, `bounds` and the scalar
   * `b()` agree on every `u8` carbon count, zero included; `carbons` and
   * `c()` part at zero.
   */
  lemma BoundsAgreeEverywhere(c: u8, cells: Option<seq<Option<int>>>)
    ensures E.Bounds(E.Row(Some(c), cells)) == Some(B(New(c)) as int)
    ensures c == 0 ==> E.Carbons(E.Row(Some(c), cells)) == Some(0) && C(New(c)) == 1
  {
  }

  /** One bond at locant 9, cis, with a null `Unsaturation` cell. */
  function NullCellBond(): Series {
    Struct(1, [
      Field("Index", UInt8([Some(9)])),
      Field("Isomerism", Int8([Some(1)])),
      Field("Unsaturation", UInt8([None]))
    ])
  }

  lemma NullCellBondRead()
    ensures WellFormed(NullCellBond())
    ensures NewUnsaturated(NullCellBond()) == Ok(UnsaturatedSeries(UInt8([Some(9)]), Int8([Some(1)]), UInt8([None])))
    ensures UnsaturationCells(NullCellBond()) == Some([None])
  {
    var child := NullCellBond();
    assert WellFormed(child) by {
      forall j | 0 <= j < |child.fields| ensures WellFormedField(child.fields[j]) {
      }
    }
    assert FieldByName(child.fields[1..], "Isomerism") == Ok(child.fields[1].series);
    assert FieldByName(child.fields[1..][1..], "Unsaturation") == Ok(child.fields[2].series);
  }

  /**
   * A bond with a null unsaturation counts 1 in `u()` and 0 in
   * `unsaturation()`: the record `get` returns is unsaturated while the
   * row's `saturated()` is true.
   */
  lemma NullCellPartsTheReadings()
    ensures var fs := FattyAcidSeries(UInt8([Some(18)]), List([Some(NullCellBond())]));
            && Valid(fs) && FattyAcidsLen(fs) == 1
            && GetSpec(fs, 0) == Ok(Some(FattyAcid(18, [Unsaturated(Some(9), Some(Cis), None)])))
            && S(GetSpec(fs, 0).value.value) == Done(false)
            && RowView(fs, 0) == Some(E.Row(Some(18), Some([None])))
            && E.Saturated(RowView(fs, 0).value) == Some(true)
  {
    NullCellBondRead();
    var bonds := List([Some(NullCellBond())]);
    assert WellFormedItem(bonds.items[0]);
    assert WellFormed(bonds);
    var fs := FattyAcidSeries(UInt8([Some(18)]), bonds);
    var us := UnsaturatedSeries(UInt8([Some(9)]), Int8([Some(1)]), UInt8([None]));
    var b := Unsaturated(Some(9), Some(Cis), None);
    assert GetUnsaturated(us, 0) == Ok(b);
    assert DecodePrefix(us, 0) == Ok([]);
    assert [] + [b] == [b];
    assert DecodeAll(us) == Ok([b]);
    assert RowBonds(fs, 0) == Ok([b]);
    assert SortBy(AdapterKey, [b]) == [b];
    assert GetSpec(fs, 0) == Ok(Some(FattyAcid(18, [b])));
    assert Degrees([b]) == 1 by {
      assert [b][..0] == [];
    }
    UIsDegreeSum(FattyAcid(18, [b]));
    var cells: seq<Option<int>> := [None];
    assert cells[..0] == [];
    assert E.ListSum(cells) == 0;
  }

  /** A null bond list gives a saturated record with no bonds, but a null `saturated()`. */
  lemma NullListPartsTheReadings()
    ensures var fs := FattyAcidSeries(UInt8([Some(18)]), List([None]));
            && Valid(fs) && FattyAcidsLen(fs) == 1
            && GetSpec(fs, 0) == Ok(Some(FattyAcid(18, [])))
            && S(GetSpec(fs, 0).value.value) == Done(true)
            && RowView(fs, 0) == Some(E.Row(Some(18), None))
            && E.Saturated(RowView(fs, 0).value).None?
  {
    var bonds: Series := List([None]);
    assert WellFormedItem(bonds.items[0]);
    assert WellFormed(bonds);
    UIsDegreeSum(FattyAcid(18, []));
  }
}
