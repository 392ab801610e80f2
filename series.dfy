/**
 * The columnar adapters of `src/fatty_acid/polars/series/`: a
 * `FattyAcidSeries` reads records back out of a struct column with
 * `Carbons` (u8) and `Unsaturated` (list of structs with `Index` u8,
 * `Isomerism` i8, `Unsaturation` u8). The older copy in
 * `src/polars/series/fatty_acids.rs` is the same code and shares this
 * model.
 */
module SeriesAdapter {
  import opened Wrappers
  import opened Ints
  import opened FattyAcid
  import opened Ordering
  import opened Polars

  // ---------------------------------------------------------------------
  // UnsaturatedSeries

  datatype UnsaturatedSeries = UnsaturatedSeries(index: Series, isomerism: Series, unsaturation: Series)

  /** `UnsaturatedSeries::new`: a struct column with `Index`, `Isomerism` and `Unsaturation` fields, looked up in that order. */
  function NewUnsaturated(s: Series): Result<UnsaturatedSeries, PolarsError> {
    match StructFields(s)
    case Err(e) => Err(e)
    case Ok(fields) =>
      match FieldByName(fields, "Index")
      case Err(e) => Err(e)
      case Ok(index) =>
        match FieldByName(fields, "Isomerism")
        case Err(e) => Err(e)
        case Ok(isomerism) =>
          match FieldByName(fields, "Unsaturation")
          case Err(e) => Err(e)
          case Ok(unsaturation) => Ok(UnsaturatedSeries(index, isomerism, unsaturation))
  }

  predicate HasField(s: Series, name: string) {
    s.Struct? && exists k :: 0 <= k < |s.fields| && s.fields[k].name == name
  }

  /**
   * `new` succeeds exactly on a struct column having all three fields;
   * otherwise the first failing lookup names its error. On a well-formed
   * struct the three columns have the struct's length, which is `len()`.
   */
  lemma NewUnsaturatedCharacterised(s: Series)
    ensures NewUnsaturated(s).Ok? <==> HasField(s, "Index") && HasField(s, "Isomerism") && HasField(s, "Unsaturation")
    ensures !s.Struct? ==> NewUnsaturated(s) == Err(SchemaMismatch(StructType))
    ensures s.Struct? && !HasField(s, "Index") ==> NewUnsaturated(s) == Err(StructFieldNotFound("Index"))
    ensures s.Struct? && HasField(s, "Index") && !HasField(s, "Isomerism") ==>
              NewUnsaturated(s) == Err(StructFieldNotFound("Isomerism"))
    ensures s.Struct? && HasField(s, "Index") && HasField(s, "Isomerism") && !HasField(s, "Unsaturation") ==>
              NewUnsaturated(s) == Err(StructFieldNotFound("Unsaturation"))
    ensures NewUnsaturated(s).Ok? && WellFormed(s) ==>
              var us := NewUnsaturated(s).value;
              UnsaturatedLen(us) == Len(s) && InBounds(us) && WellFormed(us.index)
  {
    if NewUnsaturated(s).Ok? && WellFormed(s) {
      FieldOfWellFormed(s.rows, s.fields, "Index");
      FieldOfWellFormed(s.rows, s.fields, "Isomerism");
      FieldOfWellFormed(s.rows, s.fields, "Unsaturation");
    }
  }

  /** `UnsaturatedSeries::len`: the length of the Index column. */
  function UnsaturatedLen(us: UnsaturatedSeries): nat {
    Len(us.index)
  }

  /** The three columns can all be read at every row below `len()`. */
  predicate InBounds(us: UnsaturatedSeries) {
    Len(us.isomerism) == Len(us.index) && Len(us.unsaturation) == Len(us.index)
  }

  /** `i8 → Isomerism` through `try_into().ok()`, under `Option::and_then`. */
  function DecodeIsomerism(v: Option<i8>): (r: Option<Isomerism>)
    ensures r == Some(Cis) <==> v.Some? && v.value > 0
    ensures r == Some(Trans) <==> v.Some? && v.value < 0
    ensures r.None? <==> v.None? || v.value == 0
  {
    match v
    case None => None
    case Some(x) => if IsomerismTryFrom(x).Ok? then Some(IsomerismTryFrom(x).value) else None
  }

  /** `u8 → Unsaturation` through `try_into().ok()`, under `Option::and_then`. */
  function DecodeUnsaturation(v: Option<u8>): (r: Option<Unsaturation>)
    ensures r == Some(One) <==> v == Some(1)
    ensures r == Some(Two) <==> v == Some(2)
    ensures r.None? <==> v.None? || (v.value != 1 && v.value != 2)
  {
    match v
    case None => None
    case Some(x) => if UnsaturationTryFrom(x).Ok? then Some(UnsaturationTryFrom(x).value) else None
  }

  /** `UnsaturatedSeries::get`: the three typed reads in field order, the first dtype error wins. */
  function GetUnsaturated(us: UnsaturatedSeries, i: nat): (r: Result<Unsaturated, PolarsError>)
    requires InBounds(us) && i < UnsaturatedLen(us)
    ensures r.Ok? <==> us.index.UInt8? && us.isomerism.Int8? && us.unsaturation.UInt8?
    ensures !us.index.UInt8? ==> r == Err(SchemaMismatch(UInt8Type))
    ensures r.Ok? ==> r.value.index == us.index.values[i]
    ensures r.Ok? ==> r.value.isomerism == DecodeIsomerism(us.isomerism.values8[i])
    ensures r.Ok? ==> r.value.unsaturation == DecodeUnsaturation(us.unsaturation.values[i])
  {
    match GetU8(us.index, i)
    case Err(e) => Err(e)
    case Ok(index) =>
      match GetI8(us.isomerism, i)
      case Err(e) => Err(e)
      case Ok(isomerism) =>
        match GetU8(us.unsaturation, i)
        case Err(e) => Err(e)
        case Ok(unsaturation) =>
          Ok(Unsaturated(index, DecodeIsomerism(isomerism), DecodeUnsaturation(unsaturation)))
  }

  /** The bonds of rows `0..n`, read one after another; the first error stops the reading. */
  function DecodePrefix(us: UnsaturatedSeries, n: nat): Result<seq<Unsaturated>, PolarsError>
    requires InBounds(us) && n <= UnsaturatedLen(us)
  {
    if n == 0 then Ok([])
    else
      match DecodePrefix(us, n - 1)
      case Err(e) => Err(e)
      case Ok(prefix) =>
        match GetUnsaturated(us, n - 1)
        case Err(e) => Err(e)
        case Ok(b) => Ok(prefix + [b])
  }

  function DecodeAll(us: UnsaturatedSeries): Result<seq<Unsaturated>, PolarsError>
    requires InBounds(us)
  {
    DecodePrefix(us, UnsaturatedLen(us))
  }

  /**
   * Reading succeeds on an empty column whatever its data types, and
   * otherwise exactly when the three columns have the right data types;
   * then there is one bond per row, each the row's own decoding.
   */
  lemma {:induction false} DecodePrefixCharacterised(us: UnsaturatedSeries, n: nat)
    requires InBounds(us) && n <= UnsaturatedLen(us)
    ensures DecodePrefix(us, n).Ok? <==> n == 0 || (us.index.UInt8? && us.isomerism.Int8? && us.unsaturation.UInt8?)
    ensures DecodePrefix(us, n).Ok? ==>
              |DecodePrefix(us, n).value| == n
              && forall k :: 0 <= k < n ==> GetUnsaturated(us, k) == Ok(DecodePrefix(us, n).value[k])
  {
    if n > 0 {
      DecodePrefixCharacterised(us, n - 1);
    }
  }

  // ---------------------------------------------------------------------
  // FattyAcidSeries

  datatype FattyAcidSeries = FattyAcidSeries(carbons: Series, unsaturated: Series)

  /** `FattyAcidSeries::new`: a struct column with `Carbons` and `Unsaturated` fields. */
  function NewFattyAcids(s: Series): Result<FattyAcidSeries, PolarsError> {
    match StructFields(s)
    case Err(e) => Err(e)
    case Ok(fields) =>
      match FieldByName(fields, "Carbons")
      case Err(e) => Err(e)
      case Ok(carbons) =>
        match FieldByName(fields, "Unsaturated")
        case Err(e) => Err(e)
        case Ok(unsaturated) => Ok(FattyAcidSeries(carbons, unsaturated))
  }

  /** `FattyAcidSeries::len`: the length of the Carbons column. */
  function FattyAcidsLen(fs: FattyAcidSeries): nat {
    Len(fs.carbons)
  }

  /** Both columns come from one well-formed struct. */
  predicate Valid(fs: FattyAcidSeries) {
    Len(fs.unsaturated) == Len(fs.carbons) && WellFormed(fs.carbons) && WellFormed(fs.unsaturated)
  }

  /**
   * `new` succeeds exactly on a struct with both fields; on a well-formed
   * struct the result is valid and its `len()` is the struct's length.
   */
  lemma NewFattyAcidsCharacterised(s: Series)
    ensures NewFattyAcids(s).Ok? <==> HasField(s, "Carbons") && HasField(s, "Unsaturated")
    ensures !s.Struct? ==> NewFattyAcids(s) == Err(SchemaMismatch(StructType))
    ensures s.Struct? && !HasField(s, "Carbons") ==> NewFattyAcids(s) == Err(StructFieldNotFound("Carbons"))
    ensures s.Struct? && HasField(s, "Carbons") && !HasField(s, "Unsaturated") ==>
              NewFattyAcids(s) == Err(StructFieldNotFound("Unsaturated"))
    ensures NewFattyAcids(s).Ok? && WellFormed(s) ==>
              Valid(NewFattyAcids(s).value) && FattyAcidsLen(NewFattyAcids(s).value) == Len(s)
  {
    if NewFattyAcids(s).Ok? && WellFormed(s) {
      FieldOfWellFormed(s.rows, s.fields, "Carbons");
      FieldOfWellFormed(s.rows, s.fields, "Unsaturated");
    }
  }

  /** The row's bonds in stored order: none for a null list, else the child column read to its end. */
  function RowBonds(fs: FattyAcidSeries, row: nat): Result<seq<Unsaturated>, PolarsError>
    requires Valid(fs) && row < FattyAcidsLen(fs)
  {
    match GetList(fs.unsaturated, row)
    case Err(e) => Err(e)
    case Ok(None) => Ok([])
    case Ok(Some(child)) =>
      match NewUnsaturated(child)
      case Err(e) => Err(e)
      case Ok(us) =>
        assert WellFormedItem(fs.unsaturated.items[row]);
        NewUnsaturatedCharacterised(child);
        DecodeAll(us)
  }

  /** What `get(row)` returns: the carbons cell first, then the row's bonds, sorted by the adapter key. */
  function GetSpec(fs: FattyAcidSeries, row: nat): Result<Option<FattyAcid>, PolarsError>
    requires Valid(fs) && row < FattyAcidsLen(fs)
  {
    match GetU8(fs.carbons, row)
    case Err(e) => Err(e)
    case Ok(None) => Ok(None)
    case Ok(Some(c)) =>
      match RowBonds(fs, row)
      case Err(e) => Err(e)
      case Ok(bonds) => Ok(Some(FattyAcid(c, SortBy(AdapterKey, bonds))))
  }

  /** `FattyAcidSeries::get`: reads the carbons, pushes the decoded bonds one by one, then sorts them. */
  method Get(fs: FattyAcidSeries, row: nat) returns (r: Result<Option<FattyAcid>, PolarsError>)
    requires Valid(fs) && row < FattyAcidsLen(fs)
    ensures r == GetSpec(fs, row)
  {
    var carbons := GetU8(fs.carbons, row);
    if carbons.Err? {
      return Err(carbons.error);
    }
    if carbons.value.None? {
      return Ok(None);
    }
    var c := carbons.value.value;
    var unsaturated: seq<Unsaturated> := [];
    var list := GetList(fs.unsaturated, row);
    if list.Err? {
      return Err(list.error);
    }
    if list.value.Some? {
      var child := list.value.value;
      var us := NewUnsaturated(child);
      if us.Err? {
        return Err(us.error);
      }
      assert WellFormedItem(fs.unsaturated.items[row]);
      NewUnsaturatedCharacterised(child);
      var series := us.value;
      var i := 0;
      while i < UnsaturatedLen(series)
        invariant 0 <= i <= UnsaturatedLen(series)
        invariant DecodePrefix(series, i) == Ok(unsaturated)
      {
        var b := GetUnsaturated(series, i);
        if b.Err? {
          DecodeErrorSticks(series, i + 1, UnsaturatedLen(series));
          return Err(b.error);
        }
        unsaturated := unsaturated + [b.value];
        i := i + 1;
      }
    }
    unsaturated := SortBy(AdapterKey, unsaturated);
    return Ok(Some(FattyAcid(c, unsaturated)));
  }

  /** Once a read fails, reading further rows gives the same error. */
  lemma {:induction false} DecodeErrorSticks(us: UnsaturatedSeries, n: nat, m: nat)
    requires InBounds(us) && n <= m <= UnsaturatedLen(us)
    requires DecodePrefix(us, n).Err?
    ensures DecodePrefix(us, m) == DecodePrefix(us, n)
    decreases m - n
  {
    if m > n {
      DecodeErrorSticks(us, n, m - 1);
    }
  }

  /**
   * `get(row)`: a null carbons cell gives `None`; otherwise the record
   * carries that carbon count and a permutation of the row's decoded
   * bonds (none for a null list), sorted by `(unsaturation, index,
   * isomerism)` and copied without any locant validation.
   */
  lemma GetCharacterised(fs: FattyAcidSeries, row: nat)
    requires Valid(fs) && row < FattyAcidsLen(fs)
    ensures GetSpec(fs, row) == Ok(None) <==> fs.carbons.UInt8? && fs.carbons.values[row].None?
    ensures !fs.carbons.UInt8? ==> GetSpec(fs, row) == Err(SchemaMismatch(UInt8Type))
    ensures GetSpec(fs, row).Ok? && GetSpec(fs, row).value.Some? ==>
              var fa := GetSpec(fs, row).value.value;
              && fs.carbons.values[row] == Some(fa.carbons)
              && RowBonds(fs, row).Ok?
              && multiset(fa.unsaturated) == multiset(RowBonds(fs, row).value)
              && |fa.unsaturated| == |RowBonds(fs, row).value|
              && Sorted(AdapterKey, fa.unsaturated)
    ensures fs.carbons.UInt8? && fs.carbons.values[row].Some? && fs.unsaturated.List? && fs.unsaturated.items[row].None? ==>
              GetSpec(fs, row) == Ok(Some(FattyAcid(fs.carbons.values[row].value, [])))
  {
    if RowBonds(fs, row).Ok? {
      SortByCorrect(AdapterKey, RowBonds(fs, row).value);
    }
  }

  /** `unsaturated(row)`: `None` exactly for a null list, else the child column's adapter. */
  function UnsaturatedAt(fs: FattyAcidSeries, row: nat): (r: Result<Option<UnsaturatedSeries>, PolarsError>)
    requires Valid(fs) && row < FattyAcidsLen(fs)
    ensures r == Ok(None) <==> fs.unsaturated.List? && fs.unsaturated.items[row].None?
    ensures r.Ok? && r.value.Some? ==>
              fs.unsaturated.List? && fs.unsaturated.items[row].Some?
              && NewUnsaturated(fs.unsaturated.items[row].value) == Ok(r.value.value)
  {
    match GetList(fs.unsaturated, row)
    case Err(e) => Err(e)
    case Ok(None) => Ok(None)
    case Ok(Some(child)) =>
      match NewUnsaturated(child)
      case Err(e) => Err(e)
      case Ok(us) => Ok(Some(us))
  }

  // ---------------------------------------------------------------------
  // Writing records as columns, and reading them back

  /** A bond as a row of the child struct: index as is, isomerism as `i8::from`, unsaturation as its discriminant. */
  function EncodeBonds(bonds: seq<Unsaturated>): Series {
    Struct(|bonds|, [
      Field("Index", UInt8(seq(|bonds|, k requires 0 <= k < |bonds| => bonds[k].index))),
      Field("Isomerism", Int8(seq(|bonds|, k requires 0 <= k < |bonds| =>
        if bonds[k].isomerism.Some? then Some(IsomerismToI8(bonds[k].isomerism.value)) else None))),
      Field("Unsaturation", UInt8(seq(|bonds|, k requires 0 <= k < |bonds| =>
        if bonds[k].unsaturation.Some? then Some(UnsaturationToU8(bonds[k].unsaturation.value)) else None)))
    ])
  }

  /** Records as one struct column with a `Carbons` cell and an `Unsaturated` list per row. */
  function EncodeRecords(fas: seq<FattyAcid>): Series {
    Struct(|fas|, [
      Field("Carbons", UInt8(seq(|fas|, k requires 0 <= k < |fas| => Some(fas[k].carbons)))),
      Field("Unsaturated", List(seq(|fas|, k requires 0 <= k < |fas| => Some(EncodeBonds(fas[k].unsaturated)))))
    ])
  }

  /** Decoding undoes the encoding of each bond attribute, absent values included. */
  lemma DecodeEncoded(b: Unsaturated)
    ensures DecodeIsomerism(if b.isomerism.Some? then Some(IsomerismToI8(b.isomerism.value)) else None) == b.isomerism
    ensures DecodeUnsaturation(if b.unsaturation.Some? then Some(UnsaturationToU8(b.unsaturation.value)) else None) == b.unsaturation
  {
    if b.isomerism.Some? {
      ConversionsRoundTrip(b.isomerism.value, One);
    }
    if b.unsaturation.Some? {
      ConversionsRoundTrip(Cis, b.unsaturation.value);
    }
  }

  lemma NewOfEncodedBonds(bonds: seq<Unsaturated>)
    ensures var s := EncodeBonds(bonds);
            NewUnsaturated(s) == Ok(UnsaturatedSeries(s.fields[0].series, s.fields[1].series, s.fields[2].series))
  {
    var s := EncodeBonds(bonds);
    assert s.fields[0].name == "Index";
    assert s.fields[1].name == "Isomerism" && s.fields[1].name != "Index";
    assert s.fields[2].name == "Unsaturation" && s.fields[2].name != "Index" && s.fields[2].name != "Isomerism";
    assert FieldByName(s.fields, "Index") == Ok(s.fields[0].series);
    assert FieldByName(s.fields[1..], "Isomerism") == Ok(s.fields[1].series);
    assert FieldByName(s.fields[1..][1..], "Unsaturation") == Ok(s.fields[2].series);
  }

  /** Every bond written by `EncodeBonds` reads back unchanged, in order. */
  lemma BondsRoundTrip(bonds: seq<Unsaturated>)
    ensures NewUnsaturated(EncodeBonds(bonds)).Ok?
    ensures var us := NewUnsaturated(EncodeBonds(bonds)).value;
            InBounds(us) && UnsaturatedLen(us) == |bonds| && DecodeAll(us) == Ok(bonds)
  {
    NewOfEncodedBonds(bonds);
    var us := NewUnsaturated(EncodeBonds(bonds)).value;
    DecodePrefixCharacterised(us, |bonds|);
    var d := DecodeAll(us).value;
    forall k | 0 <= k < |bonds| ensures d[k] == bonds[k] {
      DecodeEncoded(bonds[k]);
      assert GetUnsaturated(us, k) == Ok(d[k]);
    }
    assert |d| == |bonds|;
    assert d == bonds;
  }

  lemma EncodeRecordsWellFormed(fas: seq<FattyAcid>)
    ensures WellFormed(EncodeRecords(fas))
  {
    var s := EncodeRecords(fas);
    var list := s.fields[1].series;
    forall k | 0 <= k < |list.items| ensures WellFormedItem(list.items[k]) {
      var child := EncodeBonds(fas[k].unsaturated);
      assert list.items[k] == Some(child);
      assert WellFormed(child) by {
        forall j | 0 <= j < |child.fields| ensures WellFormedField(child.fields[j]) {
        }
      }
    }
    assert WellFormedField(s.fields[1]);
  }

  /**
   * Records written as columns read back with their carbons and their
   * bonds sorted by the adapter key; a record whose bonds are already in
   * that order reads back unchanged.
   */
  lemma RecordsRoundTrip(fas: seq<FattyAcid>, row: nat)
    requires row < |fas|
    ensures NewFattyAcids(EncodeRecords(fas)).Ok?
    ensures var fs := NewFattyAcids(EncodeRecords(fas)).value;
            && Valid(fs) && FattyAcidsLen(fs) == |fas|
            && GetSpec(fs, row) == Ok(Some(FattyAcid(fas[row].carbons, SortBy(AdapterKey, fas[row].unsaturated))))
            && (Sorted(AdapterKey, fas[row].unsaturated) ==> GetSpec(fs, row) == Ok(Some(fas[row])))
  {
    var s := EncodeRecords(fas);
    assert s.fields[0].name == "Carbons";
    assert s.fields[1].name == "Unsaturated";
    EncodeRecordsWellFormed(fas);
    NewFattyAcidsCharacterised(s);
    var fs := NewFattyAcids(s).value;
    assert fs == FattyAcidSeries(s.fields[0].series, s.fields[1].series);
    BondsRoundTrip(fas[row].unsaturated);
    if Sorted(AdapterKey, fas[row].unsaturated) {
      SortByIdempotent(AdapterKey, fas[row].unsaturated);
    }
  }

  /**
   * No locant is validated: a Cis bond at position 19 of an 18-carbon
   * chain, which the macro rejects, reads back as it was written.
   */
  lemma GetDoesNotValidate()
    ensures var fa := FattyAcid(18, [Unsaturated(Some(19), Some(Cis), Some(One))]);
            var column := EncodeRecords([fa]);
            && MacroSpec(18, [[19]]).Err?
            && NewFattyAcids(column).Ok? && Valid(NewFattyAcids(column).value)
            && FattyAcidsLen(NewFattyAcids(column).value) == 1
            && GetSpec(NewFattyAcids(column).value, 0) == Ok(Some(fa))
  {
    var fa := FattyAcid(18, [Unsaturated(Some(19), Some(Cis), Some(One))]);
    RecordsRoundTrip([fa], 0);
    MacroValidationExamples();
    assert Sorted(AdapterKey, fa.unsaturated);
  }
}
