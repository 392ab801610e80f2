# fatty_acid in Dafny

A model of the integer and string core of the Rust crate `fatty_acid`. The crate describes a fatty acid by its number of carbons and its list of unsaturated bonds. Each bond optionally carries:

- a locant (index);
- an isomerism, cis or trans;
- a degree of unsaturation, one or two.

The model has three layers.

- **Scalar record** (`FattyAcid`, `Ordering`, `Display`):
  - the checked constructor `fatty_acid!` and `FattyAcid::new`;
  - the derived `u8` quantities `b`, `c`, `u`, `h`, `ecn`, `s`;
  - the `i8`/`u8` codes of the two enums;
  - the private `sort`;
  - the nomenclature renderer behind "18:1Δ9" and "c18u19".
- **Range variant** (`RangeFattyAcid`): the interval-valued `b()` and `h()` of `src/new_fatty_acid.rs`.
- **Dataframe layer** (`Polars`, `SeriesAdapter`, `Expressions`, `Find`, `Indices`, `LegacyIndices`, `Agreement`):
  - columns are modelled as sequences of nullable cells;
  - `FattyAcidSeries`/`UnsaturatedSeries` read records back out of a struct column;
  - the per-row expressions (`carbons`, `unsaturated`, `unsaturation`, `bounds`, `ecn`, `hydrogens`, `saturated`) are modelled on rows;
  - the class and named-acid filters are modelled as masks over a profile of rows and values.

Arithmetic in the scalar layer is `u8`/`i8` with the panics of a debug build: each `+`, `-`, `*` returns either a value or `Overflow` (`Ints.Eval`). Arithmetic in the expressions is unbounded.

Operations that work step by step are methods, proved equal to a specification function about which the lemmas are stated:

- `FattyAcid.Macro`: the macro's nested push loops.
- `Display.Fmt` and `Display.FmtLocants`: the renderer's sequence of writes.
- `SeriesAdapter.Get`: `get`'s push loop followed by the sort.

Some files are copies of others, and each copy shares the model of its original:

- `src/polars/series/fatty_acids.rs` is the same code as `src/fatty_acid/polars/series/mod.rs` and `unsaturated.rs`, so it shares `SeriesAdapter`.
- `src/fatty_acid/polars/expr/fatty_acid.rs` and the formula part of `src/polars/expr/fatty_acid.rs` compose the same expressions as `src/fatty_acid/polars/expr/mod.rs`, so they share `Expressions`.
- The older `Indices` trait's `sfa`/`ufa`/`mufa`/`pufa` and `ia`/`it`/`hh`/`hpi` (src/polars/expr/fatty_acid.rs:12-68) are the same expressions as `filter.rs`, so they share `Indices`. What differs in that file is modelled in `LegacyIndices`.
- The conversions in `src/new_fatty_acid.rs:146-189` are identical to those in `src/fatty_acid.rs:132-175`, so they share `FattyAcid`'s.

The code and the crate's older texts disagree in one place. Commented-out tests, and the documentation of an older API, expect `fatty_acid!(18;9)` to render as "c18u1c9" under ID. The active renderer writes no isomerism marker and puts no separator between the count and the locant, so it writes "c18u19". The model follows the code (`Display.RenderExamples`).

## Model

| member | source | states |
|---|---|---|
| FattyAcid.IsomerismTryFrom | src/fatty_acid.rs:141-153 | positive codes give Cis, negative give Trans, 0 is rejected with itself |
| FattyAcid.UnsaturationTryFrom | src/fatty_acid.rs:165-175 | exactly 1 and 2 are accepted; any other code is returned as the error |
| FattyAcid.IsomerismToI8 | src/fatty_acid.rs:132-139 | `i8::from`: Cis is 1 and Trans is -1, inverted by `try_from` (`ConversionsRoundTrip`) |
| FattyAcid.UnsaturationToU8 | src/fatty_acid.rs:159-163 | the discriminant: One is 1 and Two is 2, inverted by `try_from` (`ConversionsRoundTrip`) |
| FattyAcid.ConversionsRoundTrip | src/fatty_acid.rs:132-175 | decoding `i8::from(x)` and the discriminant gives the value back; `try_from(0)` is `Err(0)` |
| FattyAcid.ConversionsOnlyEncodings | src/new_fatty_acid.rs:146-189 | every accepted code is the encoding of the value it decodes to (the copy in this file is the same code) |
| FattyAcid.New | src/fatty_acid.rs:89-94 | `new(c)` has `c` carbons and no bonds |
| FattyAcid.NewSaturated | src/fatty_acid.rs:26-41 | `new(c)` and each `C*U0` constant (carbons 2, 4, …, 32) have `u() = 0`, `s()`, `c() = c`, `ecn() = c` |
| FattyAcid.HydrogensOfC18U0 | src/fatty_acid.rs:34 | C18:0 has 36 hydrogens |
| FattyAcid.LocantFault | src/fatty_acid.rs:12-14 | a locant passes exactly when it is non-zero, below the carbon count (signed compare) and not -128, whose `abs` overflows |
| FattyAcid.GroupUnsaturation | src/fatty_acid.rs:16 | group 1 gives One, group 2 gives Two, any other group number gives no unsaturation |
| FattyAcid.LocantBond | src/fatty_acid.rs:14-19 | a locant `i` yields index `abs(i)`, Cis when `i > 0`, Trans when `i < 0`, and its group number's unsaturation |
| FattyAcid.Macro | src/fatty_acid.rs:4-24 | the nested push loops return what `MacroSpec` describes, panic included |
| FattyAcid.PushLocants | src/fatty_acid.rs:11-21 | one group's locant loop, characterised by `PushLocantsOk` |
| FattyAcid.CountMax | src/fatty_acid.rs:8-16 | the largest value of `_count`'s type: 255 exactly when some group has a locant (`u8`, forced by `Unsaturation::try_from`), `i32::MAX` otherwise |
| FattyAcid.PushGroups | src/fatty_acid.rs:9-22 | the group loop, characterised by `PushGroupsOk` |
| FattyAcid.MacroSpec | src/fatty_acid.rs:4-24 | `fatty_acid!`, characterised by `MacroCharacterised` and computed by `Macro` |
| FattyAcid.EmptyGroupsNoBonds | src/fatty_acid.rs:9-22 | groups without locants add no bonds |
| FattyAcid.SkipEmptyGroups | src/fatty_acid.rs:9-10 | an empty group only advances `_count` |
| FattyAcid.EmptyGroupsDoNotOverflow | src/fatty_acid.rs:8-16 | 256 empty groups succeed with no bonds (`_count` is `i32`), while 255 empty groups and one locant overflow `_count` (`u8`) |
| FattyAcid.PushLocantsOk | src/fatty_acid.rs:11-21 | one group's loop succeeds iff every locant is valid, and then appends the locants' bonds in argument order |
| FattyAcid.PushGroupsOk | src/fatty_acid.rs:9-22 | the group loop succeeds iff the groups fit `_count`'s type (`CountMax`: `u8` when some group has a locant, `i32` otherwise) and every locant is valid; the result is the flattened bonds |
| FattyAcid.MacroCharacterised | src/fatty_acid.rs:4-24 | `fatty_acid!` panics at `c > 0` exactly for 0 carbons; it succeeds exactly when the carbons are non-zero, every locant is valid, and there are ≤ 255 groups when some group has a locant (≤ `i32::MAX` when none has); the bonds come in argument order, unsorted |
| FattyAcid.PushGroupsNeverZeroCarbons | src/fatty_acid.rs:9-22 | after the carbon check, no later step reports zero carbons |
| FattyAcid.PushLocantsNeverZeroCarbons | src/fatty_acid.rs:11-21 | the per-locant checks never report zero carbons |
| FattyAcid.MacroValidationExamples | src/fatty_acid.rs:5-13 | on 18 carbons, locants 0, 18 and 19 are rejected, while -19 (Trans at 19) and 9 (Cis at 9, One) are accepted; 0 carbons is rejected |
| FattyAcid.B | src/fatty_acid.rs:103-105 | `b() = carbons - 1`, or 0 for no carbons |
| FattyAcid.Degrees | src/fatty_acid.rs:107-114 | the total degree the `u()` fold computes (`UIsDegreeSum`, `DegreesZero`) |
| FattyAcid.FoldU | src/fatty_acid.rs:108-113 | the checked `u8` fold of `u()`, characterised by `FoldUIsSum` |
| FattyAcid.U | src/fatty_acid.rs:107-114 | `u()`, which is the total degree or a panic above 255 (`UIsDegreeSum`) |
| FattyAcid.H | src/fatty_acid.rs:53-55 | `h()`, in closed form with its definedness (`HydrogensAndEcn`) |
| FattyAcid.Ecn | src/fatty_acid.rs:60-62 | `ecn()`, in closed form with its definedness (`HydrogensAndEcn`) |
| FattyAcid.S | src/fatty_acid.rs:70-72 | `s()`, which holds iff there are no bonds (`SaturatedIffNoBonds`) |
| FattyAcid.SATURATED | src/fatty_acid.rs:26-41 | the sixteen `C*U0` constants, `new(2)` to `new(32)`; `NewSaturated` states their `u`, `s`, `c`, `ecn` |
| FattyAcid.C | src/fatty_acid.rs:46-48 | `c() = carbons` for at least one carbon, and 1 for zero carbons |
| FattyAcid.Degree | src/fatty_acid.rs:109-112 | a bond adds 2 when it is Two, and 1 when it is One or unknown (the default) |
| FattyAcid.DegreesCons | src/fatty_acid.rs:107-114 | the total degree of a bond list is additive at the front |
| FattyAcid.DegreesAppend | src/fatty_acid.rs:107-114 | the total degree of a bond list is additive at the end |
| FattyAcid.FoldUIsSum | src/fatty_acid.rs:108-113 | the `u8` fold from `acc` succeeds iff `acc` + total degree < 256 and then equals that sum |
| FattyAcid.UIsDegreeSum | src/fatty_acid.rs:107-114 | `u()` is the total degree, and panics exactly when that exceeds 255 |
| FattyAcid.UAppend | src/fatty_acid.rs:107-114 | appending a bond raises `u()` by exactly 1 or 2, its degree |
| FattyAcid.HydrogensAndEcn | src/fatty_acid.rs:53-62 | `h() = 2c - 2u` and `ecn() = c - 2u`, defined exactly when `2c ≤ 255` and `2u ≤ 2c`, resp. `2u ≤ c` |
| FattyAcid.DegreesZero | src/fatty_acid.rs:107-114 | the total degree is 0 only for no bonds, and at least the number of bonds |
| FattyAcid.SaturatedIffNoBonds | src/fatty_acid.rs:70-72 | `s()` is defined exactly when `u()` is; it holds iff `u() = 0`, iff the record has no bonds |
| Ordering.UnsaturationRank | src/fatty_acid.rs:155-163 | the derived order on `Option<Unsaturation>`: absent < One < Two |
| Ordering.IsomerismRank | src/fatty_acid.rs:125-130 | the derived order on `Option<Isomerism>` by discriminant: absent < Trans(-1) < Cis(1) |
| Ordering.IndexRank | src/fatty_acid.rs:120 | the derived order on `Option<u8>`: absent first, then by value |
| Ordering.Key | src/fatty_acid.rs:96-99 | the record key `(unsaturation, isomerism, index)` and the adapter key `(unsaturation, index, isomerism)`; each determines the bond (`KeyInjective`) |
| Ordering.SortBy | src/fatty_acid.rs:96-99 | `sort_by_cached_key` under either key: a sorted permutation (`SortByCorrect`), the only one (`SortedUnique`) |
| Ordering.Sort | src/fatty_acid.rs:96-99 | `FattyAcid::sort`, characterised by `SortRecord` |
| Ordering.KeyInjective | src/fatty_acid.rs:96-99 | both sort keys determine the bond, so either order is total on bonds |
| Ordering.LeTotalOrder | src/fatty_acid/polars/series/mod.rs:49-55 | the key order is reflexive, total, antisymmetric and transitive |
| Ordering.KeysDiffer | src/fatty_acid/polars/series/mod.rs:49-55 | the record key `(unsaturation, isomerism, index)` and the adapter key `(unsaturation, index, isomerism)` order some pair of bonds oppositely |
| Ordering.InsertPermutes | src/fatty_acid.rs:96-99 | inserting adds exactly one occurrence of the bond |
| Ordering.InsertSorted | src/fatty_acid.rs:96-99 | inserting into a sorted list keeps it sorted |
| Ordering.SortByCorrect | src/fatty_acid.rs:96-99 | sorting permutes the bonds (same multiset and length) and leaves them in ascending key order |
| Ordering.HeadIsLeast | src/fatty_acid.rs:96-99 | the first bond of a sorted list is at or below each bond in it |
| Ordering.SortedTail | src/fatty_acid.rs:96-99 | the tail of a sorted list is sorted |
| Ordering.MultisetTail | src/fatty_acid.rs:96-99 | dropping equal heads from equal multisets leaves equal multisets |
| Ordering.SortedUnique | src/fatty_acid.rs:96-99 | two sorted permutations of the same bonds are equal, so the sort's stability and algorithm do not matter |
| Ordering.SortByCanonical | src/fatty_acid/polars/series/mod.rs:42-55 | the sorted result depends only on the multiset of bonds, not on the push order |
| Ordering.SortByIdempotent | src/fatty_acid/polars/series/mod.rs:49-55 | sorting already sorted bonds changes nothing |
| Ordering.InsertDegrees | src/fatty_acid.rs:107-114 | inserting a bond adds its degree to the total |
| Ordering.SortByDegrees | src/fatty_acid.rs:107-114 | reordering bonds does not change their total degree |
| Ordering.SortRecord | src/fatty_acid.rs:96-99 | `sort` keeps the carbons, permutes the bonds into record-key order, keeps `u()`, is idempotent, and gives equal results on any two records with the same bonds |
| Display.DigitChar | src/fatty_acid/display.rs:130 | a digit is written as a character '0'..'9' |
| Display.DigitValue | src/fatty_acid/display.rs:130 | a digit character denotes a value below 10 |
| Display.DigitsRoundTrip | src/fatty_acid/display.rs:130 | an integer is written as a non-empty decimal numeral with no leading zero that denotes the integer |
| Display.Digits | src/fatty_acid/display.rs:130 | the decimal numeral of an integer (`DigitsRoundTrip`) |
| Display.Pad | src/fatty_acid/display.rs:130-132 | an integer written under the formatter's width and zero flag (`PadWidth`) |
| Display.Locants | src/fatty_acid/display.rs:133-163 | the alternate-mode tail, computed by `FmtLocants` |
| Display.Render | src/fatty_acid/display.rs:126-166 | the whole text, computed by `Fmt`; `CompactPrefixOfAlternate`, `RenderIgnoresNotationAndElision`, `CountIsNumberOfBonds` state its properties |
| Display.IsomerismMarker | src/fatty_acid/display.rs:231-245 | the isomerism marker (`MarkerFacts`) |
| Display.LocantText | src/fatty_acid/display.rs:190-203 | the index helper's text, inverted by `ParseLocant` (`LocantRoundTrip`) |
| Display.Fill | src/fatty_acid/display.rs:130 | padding is `k` copies of the fill character |
| Display.ValueLeadingZeros | src/fatty_acid/display.rs:130 | leading zeros do not change the number a numeral denotes |
| Display.ValueZeros | src/fatty_acid/display.rs:130 | a run of zeros denotes 0 |
| Display.PadWidth | src/fatty_acid/display.rs:129-152 | a number is written in max(width, its digit count) characters: its digits right-aligned, padded with '0' under the zero flag and with ' ' otherwise; zero-padded, it still denotes the number |
| Display.FmtLocants | src/fatty_acid/display.rs:133-163 | the alternate-mode loop writes `Locants`: for the first bond, `i[0]` and the locant only when it has an index; for each later bond, `i[1]` always, then its locant if present |
| Display.Fmt | src/fatty_acid/display.rs:126-166 | the writes produce `Render`: `c`-separator, padded carbons, `u`-separator, padded number of bonds, and the locants in alternate mode |
| Display.CompactPrefixOfAlternate | src/fatty_acid/display.rs:129-135 | the compact output is a prefix of the alternate output, and equals it when there are no bonds |
| Display.RenderIgnoresNotationAndElision | src/fatty_acid/display.rs:126-166 | the output does not depend on `notation` or `elision` |
| Display.CountIsNumberOfBonds | src/fatty_acid/display.rs:131-132 | the count is the number of bonds: records with the same carbons and the same number of bonds render alike in compact mode |
| Display.DigitsOfSmall | src/fatty_acid/display.rs:130 | 0, 1, 9 and 18 are written "0", "1", "9", "18" |
| Display.RenderExamples | src/fatty_acid.rs:184-188 | `fatty_acid!(18;9)` under COMMON gives "18:1", "18:01", "18:1Δ9", "18:01Δ09"; under ID it gives "c18u1", "c18u01", "c18u19"; a Two bond still counts 1 |
| Display.ParsePad | src/fatty_acid/display.rs:195-198 | an unpadded or zero-padded index reads back as itself |
| Display.LocantRoundTrip | src/fatty_acid/display.rs:190-203 | the locant helper's text (marker and index, either notation, either elision) reads back to the isomerism and the index |
| Display.NotationsRearrange | src/fatty_acid/display.rs:190-203 | Prefix writes the marker and then the index, Suffix the index and then the marker; with the marker elided they agree |
| Display.MarkerFacts | src/fatty_acid/display.rs:231-255 | Trans always writes "t"; Cis writes "c" under Explicit and nothing under Implicit; distinct isomerisms get distinct markers; `Elision` defaults to Implicit |
| RangeFattyAcid.Pred | src/new_fatty_acid.rs:51 | `c - 1` is defined exactly for `c ≥ 1` |
| RangeFattyAcid.B | src/new_fatty_acid.rs:50-54 | the range `b()`, characterised by `BoundsShape` |
| RangeFattyAcid.H | src/new_fatty_acid.rs:59-64 | the range `h()`, characterised by `HydrogensShape` and `HydrogensOrdered` |
| RangeFattyAcid.Saturated | src/new_fatty_acid.rs:99-104 | `saturated(r)`: carbons `r`, no unsaturation range (`SaturatedFacts`) |
| RangeFattyAcid.Hydrogen | src/new_fatty_acid.rs:60 | `2c - 2u` is defined exactly when each step fits in `u8`, and then equals `2c - 2u` |
| RangeFattyAcid.BoundsShape | src/new_fatty_acid.rs:50-54 | `b()` is None without carbons; otherwise it maps `[s, e]` to `[s-1, e-1]`, defined exactly when both ends are ≥ 1; it ignores `u()` |
| RangeFattyAcid.HydrogensShape | src/new_fatty_acid.rs:59-64 | `h()` is None when either range is missing; otherwise it is `[2cs-2us, 2ce-2ue]`, defined exactly when every step fits |
| RangeFattyAcid.HydrogensOrdered | src/new_fatty_acid.rs:59-64 | the hydrogen range has start ≤ end exactly when `ue - us ≤ ce - cs` |
| RangeFattyAcid.HydrogensCanBeEmpty | src/new_fatty_acid.rs:59-64 | carbons 16..=18 with unsaturation 0..=3 give the empty range 32..=30 |
| RangeFattyAcid.AgreesWithScalar | src/new_fatty_acid.rs:50-64 | on single-point ranges with ≥ 1 carbon, `b()` and `h()` agree with the scalar `b()` and `h()`, overflow included |
| RangeFattyAcid.ZeroCarbonsDiffer | src/new_fatty_acid.rs:50-54 | at 0 carbons the scalar `b()` saturates to 0 while the range `b()` panics |
| RangeFattyAcid.SaturatedFacts | src/new_fatty_acid.rs:30-45 | `saturated(r)` and the `C*U0` constants keep `r` as the carbons, have `h() = None`, and lower both ends in `b()` |
| Polars.FieldByName | src/fatty_acid/polars/series/mod.rs:26-27 | the lookup succeeds iff a field of that name exists, returns such a field, and otherwise fails with that name |
| Polars.FieldOfWellFormed | src/fatty_acid/polars/series/mod.rs:26-27 | a field of a well-formed struct is well formed and has the struct's length |
| Polars.StructFields | src/fatty_acid/polars/series/mod.rs:25 | `struct_()` succeeds exactly on a struct column |
| Polars.GetU8 | src/fatty_acid/polars/series/mod.rs:39 | `u8()?.get(row)` succeeds exactly on a `u8` column and gives the row's nullable cell |
| Polars.GetI8 | src/fatty_acid/polars/series/unsaturated.rs:32-35 | `i8()?.get(row)` succeeds exactly on an `i8` column and gives the row's nullable cell |
| Polars.GetList | src/fatty_acid/polars/series/mod.rs:43 | `list()?.get_as_series(row)` succeeds exactly on a list column and gives the row's child column or null |
| SeriesAdapter.NewUnsaturatedCharacterised | src/fatty_acid/polars/series/unsaturated.rs:13-27 | `new` succeeds exactly on a struct with Index, Isomerism and Unsaturation fields, otherwise the error names the first field missing in the order Index, Isomerism, Unsaturation (or the data type, for a non-struct); then `len()` is the struct's length |
| SeriesAdapter.NewUnsaturated | src/fatty_acid/polars/series/unsaturated.rs:13-22 | `UnsaturatedSeries::new`, characterised by `NewUnsaturatedCharacterised` |
| SeriesAdapter.UnsaturatedLen | src/fatty_acid/polars/series/unsaturated.rs:25-27 | `len()`, the struct's length (`NewUnsaturatedCharacterised`) |
| SeriesAdapter.DecodeAll | src/fatty_acid/polars/series/mod.rs:45-47 | the read loop over every row, characterised by `DecodePrefixCharacterised` |
| SeriesAdapter.NewFattyAcids | src/fatty_acid/polars/series/mod.rs:24-32 | `FattyAcidSeries::new`, characterised by `NewFattyAcidsCharacterised` |
| SeriesAdapter.FattyAcidsLen | src/fatty_acid/polars/series/mod.rs:34-36 | `len()`, the struct's length (`NewFattyAcidsCharacterised`) |
| SeriesAdapter.GetSpec | src/fatty_acid/polars/series/mod.rs:38-60 | `get(row)`, computed by `Get` and characterised by `GetCharacterised` |
| SeriesAdapter.DecodeIsomerism | src/fatty_acid/polars/series/unsaturated.rs:32-36 | positive decodes to Cis, negative to Trans, 0 and null to absent |
| SeriesAdapter.DecodeUnsaturation | src/fatty_acid/polars/series/unsaturated.rs:37-41 | 1 decodes to One, 2 to Two, any other value and null to absent |
| SeriesAdapter.GetUnsaturated | src/fatty_acid/polars/series/unsaturated.rs:29-43 | `get` succeeds exactly when the three columns have types u8, i8, u8; it copies the index and decodes the other two cells |
| SeriesAdapter.DecodePrefixCharacterised | src/fatty_acid/polars/series/mod.rs:44-47 | reading rows `0..n` succeeds iff `n = 0` or the types are right, giving one bond per row, each that row's `get` |
| SeriesAdapter.NewFattyAcidsCharacterised | src/fatty_acid/polars/series/mod.rs:24-36 | `new` succeeds exactly on a struct with Carbons and Unsaturated fields, naming the missing one; then `len()` is the struct's length |
| SeriesAdapter.Get | src/fatty_acid/polars/series/mod.rs:38-60 | the push loop and the sort compute `GetSpec` |
| SeriesAdapter.DecodeErrorSticks | src/fatty_acid/polars/series/mod.rs:46 | after the first failed read, `?` returns that same error |
| SeriesAdapter.GetCharacterised | src/fatty_acid/polars/series/mod.rs:38-60 | `get(row)` is `None` exactly for a null carbons cell; otherwise it has those carbons and a permutation of the row's decoded bonds, sorted by `(unsaturation, index, isomerism)`; a null list gives no bonds |
| SeriesAdapter.UnsaturatedAt | src/fatty_acid/polars/series/mod.rs:62-67 | `unsaturated(row)` is `None` exactly for a null list; otherwise it is the child column's adapter |
| SeriesAdapter.DecodeEncoded | src/fatty_acid/polars/series/unsaturated.rs:32-41 | decoding undoes `i8::from` and the discriminant, absent values included |
| SeriesAdapter.NewOfEncodedBonds | src/fatty_acid/polars/series/unsaturated.rs:13-22 | a written bond column has the three fields `new` looks for |
| SeriesAdapter.BondsRoundTrip | src/fatty_acid/polars/series/unsaturated.rs:29-43 | bonds written as a column (index, `i8::from(isomerism)`, discriminant) read back unchanged and in order |
| SeriesAdapter.EncodeRecordsWellFormed | src/fatty_acid/polars/series/mod.rs:24-32 | written record columns satisfy the struct-length invariant |
| SeriesAdapter.RecordsRoundTrip | src/fatty_acid/polars/series/mod.rs:38-60 | written records read back with their carbons and their bonds in adapter-key order, and unchanged when already in that order |
| SeriesAdapter.GetDoesNotValidate | src/fatty_acid/polars/series/mod.rs:44-47 | a Cis bond at 19 on 18 carbons, which the macro rejects, reads back as written |
| Expressions.Unsaturated | src/fatty_acid/polars/expr/mod.rs:34-43 | `unsaturated()` is the length of the row's list, null ones counted, and null for a null list |
| Expressions.Carbons | src/fatty_acid/polars/expr/mod.rs:27-29 | the row's Carbons cell; it equals the record's `carbons` (`FormulasAgreeWithRecord`) |
| Expressions.Unsaturation | src/fatty_acid/polars/expr/mod.rs:46-55 | `unsaturation()` is null exactly for a null list |
| Expressions.ListSumBounds | src/fatty_acid/polars/expr/mod.rs:46-55 | the sum lies between the bond count and twice it when every value is 1 or 2; over non-negative values it is 0 iff every value is null or 0 |
| Expressions.ListSumNonNegative | src/fatty_acid/polars/expr/mod.rs:46-55 | a sum of non-negative values is non-negative |
| Expressions.Bounds | src/fatty_acid/polars/expr/mod.rs:91-93 | `bounds` is `carbons - 1` clamped at 0, null for null carbons |
| Expressions.Ecn | src/fatty_acid/polars/expr/mod.rs:98-100 | `ecn` is null exactly when carbons or the list is null |
| Expressions.Hydrogens | src/fatty_acid/polars/expr/mod.rs:105-107 | `hydrogens` is null exactly when carbons or the list is null |
| Expressions.Saturated | src/fatty_acid/polars/expr/mod.rs:115-117 | `saturated` is null exactly for a null list |
| Expressions.FormulasAgree | src/fatty_acid/polars/expr/mod.rs:98-117 | on a row with carbons and a list: `H - ECN = C`, `H = 2C - 2U`, and saturated ⟺ `H = 2C` ⟺ `ECN = C` |
| Expressions.SaturatedVersusCount | src/fatty_acid/polars/expr/mod.rs:115-117 | `saturated` agrees with "no bonds" when every value is 1 or 2, but one bond with a null value is saturated |
| Expressions.And | src/fatty_acid/polars/expr/find.rs:36 | `and` is true iff both sides are true and false iff either is false (null otherwise) |
| Expressions.Filter | src/fatty_acid/polars/expr/filter.rs:99-101 | `filter` keeps only entries whose mask is true, and never more entries than given |
| Expressions.FilterCons | src/fatty_acid/polars/expr/filter.rs:99-101 | filtering one entry more keeps it before the rest exactly when it passes |
| Expressions.SumCons | src/fatty_acid/polars/expr/filter.rs:146 | summing one entry more adds its value (0 for null) |
| Expressions.Sum | src/fatty_acid/polars/expr/filter.rs:99-101 | `sum` over a profile, skipping nulls (`SumCons`, `FilterPartition`) |
| Expressions.FilterCounts | src/fatty_acid/polars/expr/filter.rs:99-101 | every passing entry is kept as often as it occurs, every other one is dropped |
| Expressions.FilterPartition | src/fatty_acid/polars/expr/filter.rs:99-113 | two disjoint masks that together form a third split its entries, count and sum |
| Expressions.FilterDisjoint | src/fatty_acid/polars/expr/filter.rs:99-113 | entries passing one of two disjoint masks never pass the other |
| Expressions.FilterSubset | src/fatty_acid/polars/expr/filter.rs:99-113 | a mask implying another selects the same as filtering by both |
| Expressions.FilterSame | src/fatty_acid/polars/expr/find.rs:75-92 | masks true on the same rows select the same entries |
| Find.CarbonsAndCount | src/fatty_acid/polars/expr/find.rs:35-69 | `carbons().eq(c).and(unsaturated().eq(n))` is true iff the row has `c` carbons and `n` bonds, and false iff one of them is known and differs |
| Find.C12U0 | src/fatty_acid/polars/expr/find.rs:35-37 | passes exactly the rows with 12 carbons and 0 bonds (`FindKeys`), disjoint from the other eight filters (`FindPairwiseDisjoint`) |
| Find.C14U0 | src/fatty_acid/polars/expr/find.rs:39-41 | passes exactly the rows with 14 carbons and 0 bonds (`FindKeys`), disjoint from the other eight filters (`FindPairwiseDisjoint`) |
| Find.C16U0 | src/fatty_acid/polars/expr/find.rs:43-45 | passes exactly the rows with 16 carbons and 0 bonds (`FindKeys`), disjoint from the other eight filters (`FindPairwiseDisjoint`) |
| Find.C18U0 | src/fatty_acid/polars/expr/find.rs:47-49 | passes exactly the rows with 18 carbons and 0 bonds (`FindKeys`), disjoint from the other eight filters (`FindPairwiseDisjoint`) |
| Find.C18U1 | src/fatty_acid/polars/expr/find.rs:51-53 | passes exactly the rows with 18 carbons and 1 bonds (`FindKeys`), disjoint from the other eight filters (`FindPairwiseDisjoint`) |
| Find.C18U2Z9Z12 | src/fatty_acid/polars/expr/find.rs:55-57 | passes exactly the rows with 18 carbons and 2 bonds (`FindKeys`), disjoint from the other eight filters (`FindPairwiseDisjoint`) |
| Find.C18U3Z9Z12Z15 | src/fatty_acid/polars/expr/find.rs:59-61 | passes exactly the rows with 18 carbons and 3 bonds (`FindKeys`), disjoint from the other eight filters (`FindPairwiseDisjoint`) |
| Find.C20U5Z5Z8Z11Z14Z17 | src/fatty_acid/polars/expr/find.rs:63-65 | passes exactly the rows with 20 carbons and 5 bonds (`FindKeys`), disjoint from the other eight filters (`FindPairwiseDisjoint`) |
| Find.C22U6Z4Z7Z10Z13Z16Z19 | src/fatty_acid/polars/expr/find.rs:67-69 | passes exactly the rows with 22 carbons and 6 bonds (`FindKeys`), disjoint from the other eight filters (`FindPairwiseDisjoint`) |
| Find.Linoleic | src/fatty_acid/polars/expr/find.rs:75-77 | selects the same entries as the C18:2 filter (`NamedAcids`) |
| Find.AlphaLinolenic | src/fatty_acid/polars/expr/find.rs:80-82 | selects the same entries as the C18:3 filter (`NamedAcids`) |
| Find.Eicosapentaenoic | src/fatty_acid/polars/expr/find.rs:85-87 | selects the same entries as the C20:5 filter (`NamedAcids`) |
| Find.Docosahexaenoic | src/fatty_acid/polars/expr/find.rs:90-92 | selects the same entries as the C22:6 filter (`NamedAcids`) |
| Find.FindKeys | src/fatty_acid/polars/expr/find.rs:35-69 | each of the nine filters passes exactly the rows with its (carbons, bond count) pair |
| Find.FindPairwiseDisjoint | src/fatty_acid/polars/expr/find.rs:35-69 | any two of the nine filters select disjoint entries |
| Find.FindIgnoresBonds | src/fatty_acid/polars/expr/find.rs:55-69 | only carbons and bond count matter, so the locants in the names are never checked; one Two bond at 18 carbons is C18:1 |
| Find.NamedAcids | src/fatty_acid/polars/expr/find.rs:73-93 | `linoleic`, `alpha_linolenic`, `eicosapentaenoic`, `docosahexaenoic` select exactly C18:2, C18:3, C20:5, C22:6 |
| Indices.SfaUfaPartition | src/fatty_acid/polars/expr/filter.rs:99-105 | SFA and UFA split the rows that have a bond list (count and sum), are disjoint, and split the whole profile when every row has a list |
| Indices.Monoenoics | src/fatty_acid/polars/expr/filter.rs:75-77 | rows with exactly 1 bond; `EnoicClasses` places them in MUFA, and `UiIsEnoicWeighted` weights them by 1 in `ui` |
| Indices.Dienoics | src/fatty_acid/polars/expr/filter.rs:79-81 | rows with exactly 2 bonds; `EnoicClasses` places them in PUFA, and `UiIsEnoicWeighted` weights them by 2 in `ui` |
| Indices.Trienoics | src/fatty_acid/polars/expr/filter.rs:83-85 | rows with exactly 3 bonds; `EnoicClasses` places them in PUFA, and `UiIsEnoicWeighted` weights them by 3 in `ui` |
| Indices.Tetraenoics | src/fatty_acid/polars/expr/filter.rs:87-89 | rows with exactly 4 bonds; `EnoicClasses` places them in PUFA, and `UiIsEnoicWeighted` weights them by 4 in `ui` |
| Indices.Pentaenoics | src/fatty_acid/polars/expr/filter.rs:91-93 | rows with exactly 5 bonds; `EnoicClasses` places them in PUFA, and `UiIsEnoicWeighted` weights them by 5 in `ui` |
| Indices.Hexaenoics | src/fatty_acid/polars/expr/filter.rs:95-97 | rows with exactly 6 bonds; `EnoicClasses` places them in PUFA, and `UiIsEnoicWeighted` weights them by 6 in `ui` |
| Indices.Sfa | src/fatty_acid/polars/expr/filter.rs:99-101 | rows with no bonds; with `Ufa` it splits the rows that have a list (`SfaUfaPartition`) and adds nothing to `ui` (`UiOfSfa`) |
| Indices.Ufa | src/fatty_acid/polars/expr/filter.rs:103-105 | rows with at least one bond; disjoint from `Sfa` and made up of `Mufa` and `Pufa` (`SfaUfaPartition`, `MufaPufaSplitUfa`) |
| Indices.Mufa | src/fatty_acid/polars/expr/filter.rs:107-109 | rows with exactly one bond, counted not weighted by degree (`ClassesCountBonds`); the single-bond part of UFA (`MufaPufaSplitUfa`) |
| Indices.Pufa | src/fatty_acid/polars/expr/filter.rs:111-113 | rows with more than one bond; the rest of UFA (`MufaPufaSplitUfa`) |
| Indices.Tfa | src/fatty_acid/polars/expr/filter.rs:153-155 | rows with 18 carbons and 3 bonds, the same as `c18u3z9z12z15` (`TfaIsC18U3`) |
| Indices.UiTerm | src/fatty_acid/polars/expr/filter.rs:145-147 | one row's term of `(unsaturated() * expr).sum()`: bond count times value, 0 when either is null (`UiOfSfa`, `EnoicStep`) |
| Indices.Ui | src/fatty_acid/polars/expr/filter.rs:145-147 | `ui` as the weighted class sums (`UiIsEnoicWeighted`) |
| Indices.IaNumerator | src/fatty_acid/polars/expr/filter.rs:125-128 | `ia`'s numerator rows; SFA rows disjoint from its UFA denominator (`IndexRowSets`) |
| Indices.ItNumerator | src/fatty_acid/polars/expr/filter.rs:130-133 | `it`'s numerator rows; SFA rows disjoint from its UFA denominator (`IndexRowSets`) |
| Indices.HhNumerator | src/fatty_acid/polars/expr/filter.rs:135-138 | `hh`'s numerator rows, disjoint from its denominator rows (`IndexRowSets`) |
| Indices.HpiNumerator | src/fatty_acid/polars/expr/filter.rs:140-143 | `hpi`'s numerator rows, `ia`'s denominator rows (`IndexRowSets`) |
| Indices.FlqNumerator | src/fatty_acid/polars/expr/filter.rs:149-151 | `flq`'s numerator rows, EPA and DHA as a multiset union (`IndexRowSets`) |
| Indices.FilterAll | src/fatty_acid/polars/expr/filter.rs:99-105 | a mask true on every row keeps the profile whole |
| Indices.MufaPufaSplitUfa | src/fatty_acid/polars/expr/filter.rs:103-113 | MUFA and PUFA are disjoint and make up UFA, entries and sums |
| Indices.EnoicClasses | src/fatty_acid/polars/expr/filter.rs:75-97 | monoenoics are MUFA; dienoics to hexaenoics lie within PUFA |
| Indices.ClassesCountBonds | src/fatty_acid/polars/expr/filter.rs:75-113 | a single Two bond is monoenoic and MUFA, not dienoic or PUFA, and not saturated |
| Indices.FindWithinClasses | src/fatty_acid/polars/expr/find.rs:35-53 | C12:0, C14:0, C16:0, C18:0 select SFA rows; C18:1 selects MUFA rows |
| Indices.TfaIsC18U3 | src/fatty_acid/polars/expr/filter.rs:153-155 | `tfa` selects the same rows as `c18u3z9z12z15` |
| Indices.UiOfSfa | src/fatty_acid/polars/expr/filter.rs:145-147 | saturated rows contribute nothing to `ui` |
| Indices.UiIsEnoicWeighted | src/fatty_acid/polars/expr/filter.rs:145-147 | with at most six bonds per row, `ui = 1·Σmono + 2·Σdi + … + 6·Σhexa` |
| Indices.EnoicStep | src/fatty_acid/polars/expr/filter.rs:75-97 | one more row adds its `ui` term to the weighted class sums |
| Indices.IndexRowSets | src/fatty_acid/polars/expr/filter.rs:125-151 | `ia`'s numerator rows are SFA and disjoint from its UFA denominator; `hpi` swaps them; `hh`'s two sides are disjoint; `it`'s numerator is SFA over a UFA denominator; `flq`'s numerator is EPA plus DHA |
| LegacyIndices.EpaDhaSwapped | src/polars/expr/fatty_acid.rs:89-100 | `epa` selects the C22:6 rows of `docosahexaenoic` and `dha` the C20:5 rows of `eicosapentaenoic`; they are disjoint |
| LegacyIndices.Epa | src/polars/expr/fatty_acid.rs:92-94 | rows with 22 carbons and 6 bonds, the newer `docosahexaenoic` (`EpaDhaSwapped`) |
| LegacyIndices.Dha | src/polars/expr/fatty_acid.rs:98-100 | rows with 20 carbons and 5 bonds, the newer `eicosapentaenoic` (`EpaDhaSwapped`) |
| LegacyIndices.La | src/polars/expr/fatty_acid.rs:104-106 | the newer `linoleic` (`TfaIsAla`) |
| LegacyIndices.Ala | src/polars/expr/fatty_acid.rs:110-112 | the legacy `tfa`'s rows (`TfaIsAla`) |
| LegacyIndices.Tfa | src/polars/expr/fatty_acid.rs:84-86 | the same rows as `ala` and as the newer `tfa` (`TfaIsAla`) |
| LegacyIndices.FlqNumerator | src/polars/expr/fatty_acid.rs:78-80 | the same rows as the newer `flq` numerator (`FlqNumeratorUnchanged`) |
| LegacyIndices.FlqNumeratorUnchanged | src/polars/expr/fatty_acid.rs:76-80 | despite the swap, `flq`'s numerator rows equal those of the newer `flq` |
| LegacyIndices.TfaIsAla | src/polars/expr/fatty_acid.rs:82-112 | `tfa` and `ala` select the same rows (C18, 3 bonds), `la` is `linoleic`, and both `tfa`s agree |
| Agreement.RowView | src/fatty_acid/polars/expr/mod.rs:27-55 | the row the expressions read is the Carbons cell and the Unsaturation cells of the row's list, null for a null list |
| Agreement.DegreesOfCells | src/fatty_acid.rs:107-114 | bonds decoded from cells of 1 and 2 have those cells' sum as their total degree |
| Agreement.CellsOfRow | src/fatty_acid/polars/series/mod.rs:43-47 | the bonds `get` reads are one per cell, and their degrees sum to `list.sum` of the cells |
| Agreement.RecordMatchesRow | src/fatty_acid.rs:46-72 | a record and a row with the same carbons (≥ 1), bond count and degree sum have the same `b`, `c`, `u`, `h`, `ecn`, `s` whenever the `u8` ones are defined |
| Agreement.FormulasAgreeWithRecord | src/fatty_acid/polars/expr/mod.rs:91-117 | for a row with ≥ 1 carbon, a list, and every Unsaturation cell 1 or 2, the expressions' count, unsaturation, bounds, hydrogens, ECN and saturation are those of the record `get` returns |
| Agreement.BoundsAgreeEverywhere | src/fatty_acid/polars/expr/mod.rs:91-93 | in unbounded arithmetic, `bounds` equals the scalar `b()` on every `u8` carbon count, 0 included, where `carbons` (0) and `c()` (1) differ |
| Agreement.NullCellBondRead | src/fatty_acid/polars/series/unsaturated.rs:13-22 | a one-bond column with a null Unsaturation cell is well formed and is read as such |
| Agreement.NullCellPartsTheReadings | src/fatty_acid/polars/expr/mod.rs:115-117 | a bond with a null unsaturation makes the record unsaturated (`u()` counts it 1) but the row saturated (`list.sum` skips it) |
| Agreement.NullListPartsTheReadings | src/fatty_acid/polars/series/mod.rs:43-48 | a null list gives a saturated record with no bonds but a null `saturated()` |

## Left out

- Release-build wrap-around of `u8`/`i8`: the model uses debug-build semantics, where an overflowing `+`, `-`, `*` or `abs` panics (`Overflow`).
- FattyAcid.LocantFault: the macro's locants are modelled as `i8`. The macro accepts a locant of any integer type: it compares `$i < $c` in that type and then casts with `$i as i8`, which wraps in every build. A `u8` locant of 128 or more passes both asserts and wraps to a negative `i8`, so the macro pushes a Trans bond at index 256 minus the locant (200 becomes Trans at 56). The model cannot express this case, and `MacroCharacterised`'s "every locant valid" is stated for `i8` locants only.
- Expressions.Sum, Indices.Ui: the value column is `f64` in practice, and its `sum` rounds in an order the query engine chooses. The model sums exact reals, so the sum splits of `FilterPartition`, `SfaUfaPartition` and `MufaPufaSplitUfa`, and the identity of `UiIsEnoicWeighted`, hold only up to that rounding.
- Display.Fmt: each `write_str(…)?` and nested `fmt(…)?` in display.rs:126-166 returns early with the formatter's `Err`. The model's writes never fail, so `Fmt` always produces the whole text.
- Expressions.Bounds, Agreement.BoundsAgreeEverywhere: the width and overflow of the query engine's integer types are not modelled, and expression arithmetic is unbounded. `Carbons` is a `UInt8` column. If the engine evaluates `carbons() - lit(1)` in that type, 0 carbons wraps to 255 before `clip_min(lit(0))`, and `bounds` is then 255, not 0. The agreement at 0 carbons holds only in the unbounded reading.
- `mass()` (all three copies) and `src/const.rs`: floating-point arithmetic on constants from a foreign crate.
- The values of the composite indices `ia`, `it`, `hh`, `hpi`, `flq`: they combine unsummed, filtered columns of unequal length with `+` and `/`, and their broadcasting, null handling and float division are the query engine's. Only the rows feeding each term are modelled (`Indices.IndexRowSets`).
- `ui` in src/polars/expr/fatty_acid.rs:72-74: it returns a string literal placeholder.
- `pufan` (src/fatty_acid/polars/expr/filter.rs:115-123, src/polars/expr/fatty_acid.rs:32-40): it applies `.list()` to a bond count, and has no meaning to state.
- The schema declarations in src/fatty_acid/polars/mod.rs and src/polars/mod.rs: declarations only.
- The extension-trait plumbing: `column.rs`, `data_frame.rs`, `src/polars/column`, `src/polars/data_frame`, `src/polars/series/mod.rs`, `ExprExt`, and `SeriesExt::fatty_acid`, whose `.expect` panics when `new` fails (`new`'s failure is modelled).
- `src/fatty_acid/polars/expr/short.rs` and the one-letter aliases `b`, `c`, `h`, `s`, `u` of src/fatty_acid/polars/expr/mod.rs:119-142: each only calls `bounds`, `carbons`, `hydrogens`, `saturated` or `unsaturation`, which are modelled once under their long names.
- `special/mature_milk/mod.rs`: it deserialises an embedded file.
- The `FattyAcid` struct and impl of src/new_fatty_acid.rs:91-129: they do not type-check, because `unsaturated: None` initialises a `Vec` and `u()` returns it as a range. The model reads the record through the `(c(), u())` pair that `b()` and `h()` use. `saturated(r)` is taken as written, with no unsaturation range.
- Ordering.Sort: `FattyAcid::sort` and the sort in `get` reorder a `Vec` in place. The model states the result on values: a sequence in key order with the same multiset of bonds. The two keys are injective, so that result is unique.
- Formatter fill characters, alignment flags and the sign flag `{:+}`, which the integer `Display` calls honour ("+18:+1"): `Display.Formatter` has only `alternate`, `width` and `zero`.
- `PolarsError`'s many variants: the model keeps the two the adapters can raise, a data-type mismatch and a missing struct field.
- Out-of-bounds row reads: they panic in the library, and the model excludes them by preconditions.
- SeriesAdapter.Get: on a column whose struct fields disagree in length, the library itself refuses to build the struct. The model assumes that invariant (`Polars.WellFormed`) rather than modelling the refusal.
- The `.list().eval(…)` in `unsaturated()` and `unsaturation()` fails on a bond list without an `Unsaturation` field. `Agreement.RowView` gives no row for that case, and the error itself is not modelled.
- Commented-out code and tests, which describe an older API.
