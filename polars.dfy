/**
 * The dataframe values the adapters read: a column (`Series`) is a
 * sequence of nullable cells of one data type; a struct column holds
 * named child columns of a common length, and a list column holds, per
 * row, either null or a whole child column. Accessors behave as the
 * library's typed casts: asking a column for the wrong data type is an
 * error, reading a row out of bounds is a panic and is excluded by
 * preconditions.
 */
module Polars {
  import opened Wrappers
  import opened Ints

  datatype DataType = UInt8Type | Int8Type | ListType | StructType | OtherType

  datatype Series =
    | UInt8(values: seq<Option<u8>>)
    | Int8(values8: seq<Option<i8>>)
    | List(items: seq<Option<Series>>)
    | Struct(rows: nat, fields: seq<Field>)
    | Other(count: nat)

  datatype Field = Field(name: string, series: Series)

  /** `PolarsError`, collapsed to the two kinds the adapters can raise. */
  datatype PolarsError = SchemaMismatch(expected: DataType) | StructFieldNotFound(name: string)

  /** `Series::len`. */
  function Len(s: Series): nat {
    match s
    case UInt8(values) => |values|
    case Int8(values) => |values|
    case List(items) => |items|
    case Struct(rows, _) => rows
    case Other(count) => count
  }

  function DType(s: Series): DataType {
    match s
    case UInt8(_) => UInt8Type
    case Int8(_) => Int8Type
    case List(_) => ListType
    case Struct(_, _) => StructType
    case Other(_) => OtherType
  }

  /** The library's own invariant: every struct's fields have the struct's length, at every depth. */
  predicate WellFormed(s: Series)
    decreases s
  {
    match s
    case List(items) =>
      forall k :: 0 <= k < |items| ==> items[k].Some? ==> WellFormedItem(items[k])
    case Struct(rows, fields) =>
      forall k :: 0 <= k < |fields| ==> Len(fields[k].series) == rows && WellFormedField(fields[k])
    case _ => true
  }

  predicate WellFormedItem(item: Option<Series>)
    decreases item
  {
    match item
    case None => true
    case Some(s) => WellFormed(s)
  }

  predicate WellFormedField(f: Field)
    decreases f
  {
    WellFormed(f.series)
  }

  /** `StructChunked::field_by_name`: the (first) field of that name, or `StructFieldNotFound`. */
  function FieldByName(fields: seq<Field>, name: string): (r: Result<Series, PolarsError>)
    ensures r.Ok? <==> exists k :: 0 <= k < |fields| && fields[k].name == name
    ensures r.Ok? ==> exists k :: 0 <= k < |fields| && fields[k].name == name && fields[k].series == r.value
    ensures r.Err? ==> r.error == StructFieldNotFound(name)
  {
    if fields == [] then Err(StructFieldNotFound(name))
    else if fields[0].name == name then Ok(fields[0].series)
    else
      var r := FieldByName(fields[1..], name);
      assert forall k :: 1 <= k < |fields| ==> fields[k] == fields[1..][k - 1];
      r
  }

  /** A field found by name inside a well-formed struct is itself well formed and has the struct's length. */
  lemma FieldOfWellFormed(rows: nat, fields: seq<Field>, name: string)
    requires WellFormed(Struct(rows, fields))
    requires FieldByName(fields, name).Ok?
    ensures Len(FieldByName(fields, name).value) == rows
    ensures WellFormed(FieldByName(fields, name).value)
  {
    var k :| 0 <= k < |fields| && fields[k].name == name && fields[k].series == FieldByName(fields, name).value;
    assert WellFormedField(fields[k]);
  }

  /** `Series::struct_()`: the fields of a struct column. */
  function StructFields(s: Series): (r: Result<seq<Field>, PolarsError>)
    ensures r.Ok? <==> s.Struct?
    ensures r.Err? ==> r.error == SchemaMismatch(StructType)
    ensures r.Ok? ==> r.value == s.fields
  {
    if s.Struct? then Ok(s.fields) else Err(SchemaMismatch(StructType))
  }

  /** `s.u8()?.get(row)`: the nullable `u8` cell at `row`. */
  function GetU8(s: Series, row: nat): (r: Result<Option<u8>, PolarsError>)
    requires row < Len(s)
    ensures r.Ok? <==> s.UInt8?
    ensures r.Err? ==> r.error == SchemaMismatch(UInt8Type)
    ensures r.Ok? ==> r.value == s.values[row]
  {
    if s.UInt8? then Ok(s.values[row]) else Err(SchemaMismatch(UInt8Type))
  }

  /** `s.i8()?.get(row)`: the nullable `i8` cell at `row`. */
  function GetI8(s: Series, row: nat): (r: Result<Option<i8>, PolarsError>)
    requires row < Len(s)
    ensures r.Ok? <==> s.Int8?
    ensures r.Err? ==> r.error == SchemaMismatch(Int8Type)
    ensures r.Ok? ==> r.value == s.values8[row]
  {
    if s.Int8? then Ok(s.values8[row]) else Err(SchemaMismatch(Int8Type))
  }

  /** `s.list()?.get_as_series(row)`: the child column at `row`, or `None` for a null list. */
  function GetList(s: Series, row: nat): (r: Result<Option<Series>, PolarsError>)
    requires row < Len(s)
    ensures r.Ok? <==> s.List?
    ensures r.Err? ==> r.error == SchemaMismatch(ListType)
    ensures r.Ok? ==> r.value == s.items[row]
  {
    if s.List? then Ok(s.items[row]) else Err(SchemaMismatch(ListType))
  }
}
