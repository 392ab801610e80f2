/**
 * The range-valued variant of `src/new_fatty_acid.rs`: `b()` and `h()` are
 * trait default methods doing interval arithmetic over whatever `c()` and
 * `u()` return, an optional inclusive range of `u8`. The value a record
 * presents to those methods is `Ranges(c, u)`; `saturated(r)` builds one.
 * The enum conversions of that file are those of module `FattyAcid`.
 */
module RangeFattyAcid {
  import opened Wrappers
  import opened Ints
  import Scalar = FattyAcid

  /** `RangeInclusive<u8>`: `start..=end`, which may be empty (`start > end`). */
  datatype Range = Range(start: u8, end: u8)

  /** What `c()` and `u()` return for a record. */
  datatype Ranges = Ranges(c: Option<Range>, u: Option<Range>)

  /** The single-point range `n..=n`. */
  function Point(n: u8): Range {
    Range(n, n)
  }

  /** The closure `|c| c - 1` in `u8`: panics on 0. */
  function Pred(c: u8): (r: Eval<u8>)
    ensures r.Done? <==> c >= 1
    ensures r.Done? ==> r.value == c - 1
  {
    Sub8(c, 1)
  }

  /** The closure `|c, u| 2 * c - 2 * u` in `u8`, each step checked. */
  function Hydrogen(c: u8, u: u8): (r: Eval<u8>)
    ensures r.Done? <==> 2 * c <= 255 && 2 * u <= 255 && u <= c
    ensures r.Done? ==> r.value == 2 * c - 2 * u
  {
    match Mul8(2, c)
    case Overflow => Overflow
    case Done(twoC) =>
      match Mul8(2, u)
      case Overflow => Overflow
      case Done(twoU) => Sub8(twoC, twoU)
  }

  /** `b()`: `None` without carbons, else both endpoints lowered by one. */
  function B(fa: Ranges): Eval<Option<Range>> {
    match fa.c
    case None => Done(None)
    case Some(c) =>
      match Pred(c.start)
      case Overflow => Overflow
      case Done(s) =>
        match Pred(c.end)
        case Overflow => Overflow
        case Done(e) => Done(Some(Range(s, e)))
  }

  /** `h()`: `None` without carbons or without unsaturation; endpoints paired start with start, end with end. */
  function H(fa: Ranges): Eval<Option<Range>> {
    match fa.c
    case None => Done(None)
    case Some(c) =>
      match fa.u
      case None => Done(None)
      case Some(u) =>
        match Hydrogen(c.start, u.start)
        case Overflow => Overflow
        case Done(s) =>
          match Hydrogen(c.end, u.end)
          case Overflow => Overflow
          case Done(e) => Done(Some(Range(s, e)))
  }

  /** `b()` maps `[s, e]` to `[s - 1, e - 1]`; it is defined exactly when both endpoints are at least 1. */
  lemma BoundsShape(fa: Ranges)
    ensures fa.c.None? ==> B(fa) == Done(None)
    ensures fa.c.Some? ==> (B(fa).Done? <==> fa.c.value.start >= 1 && fa.c.value.end >= 1)
    ensures fa.c.Some? && B(fa).Done? ==>
            B(fa).value == Some(Range(fa.c.value.start - 1, fa.c.value.end - 1))
    ensures B(fa).Done? ==> B(fa) == B(fa.(u := None))
  {
  }

  /** `h()` is `None` when either range is missing, else `[2cs - 2us, 2ce - 2ue]` when every step fits. */
  lemma HydrogensShape(fa: Ranges)
    ensures fa.c.None? || fa.u.None? ==> H(fa) == Done(None)
    ensures fa.c.Some? && fa.u.Some? ==>
            var c, u := fa.c.value, fa.u.value;
            (H(fa).Done? <==>
               2 * c.start <= 255 && 2 * c.end <= 255 && 2 * u.start <= 255 && 2 * u.end <= 255
               && u.start <= c.start && u.end <= c.end)
            && (H(fa).Done? ==> H(fa).value == Some(Range(2 * c.start - 2 * u.start, 2 * c.end - 2 * u.end)))
  {
  }

  /**
   * Because start is paired with start and end with end, the hydrogen
   * range is non-empty exactly when the unsaturation range is no wider
   * than the carbon range.
   */
  lemma HydrogensOrdered(fa: Ranges)
    requires H(fa).Done? && H(fa).value.Some?
    ensures var h, c, u := H(fa).value.value, fa.c.value, fa.u.value;
            h.start <= h.end <==> u.end - u.start <= c.end - c.start
  {
    HydrogensShape(fa);
  }

  /** A concrete widening: carbons 16..=18 with unsaturation 0..=3 give hydrogens 32..=30, an empty range. */
  lemma HydrogensCanBeEmpty()
    ensures H(Ranges(Some(Range(16, 18)), Some(Range(0, 3)))) == Done(Some(Range(32, 30)))
  {
  }

  /** The range record of a scalar record: single-point carbons and single-point unsaturation. */
  function PointOf(fa: Scalar.FattyAcid, u: u8): Ranges {
    Ranges(Some(Point(fa.carbons)), Some(Point(u)))
  }

  /**
   * On single-point ranges with at least one carbon, `b()` and `h()`
   * agree with the scalar record's `b()` and `h()`, overflow included.
   */
  lemma AgreesWithScalar(fa: Scalar.FattyAcid)
    requires fa.carbons >= 1 && Scalar.U(fa).Done?
    ensures B(PointOf(fa, Scalar.U(fa).value)) == Done(Some(Point(Scalar.B(fa))))
    ensures H(PointOf(fa, Scalar.U(fa).value)).Done? <==> Scalar.H(fa).Done?
    ensures Scalar.H(fa).Done? ==> H(PointOf(fa, Scalar.U(fa).value)) == Done(Some(Point(Scalar.H(fa).value)))
  {
    Scalar.UIsDegreeSum(fa);
    Scalar.HydrogensAndEcn(fa);
  }

  /** Without carbons the scalar `b()` saturates to 0, while the range `b()` of `0..=0` panics. */
  lemma ZeroCarbonsDiffer()
    ensures Scalar.B(Scalar.New(0)) == 0
    ensures B(Ranges(Some(Point(0)), None)) == Overflow
  {
  }

  /** `FattyAcid::saturated(r)`: carbons `r` and, as written, no unsaturation range at all. */
  function Saturated(carbons: Range): Ranges {
    Ranges(Some(carbons), None)
  }

  const C2U0: Ranges := Saturated(Point(2))
  const C4U0: Ranges := Saturated(Point(4))
  const C6U0: Ranges := Saturated(Point(6))
  const C8U0: Ranges := Saturated(Point(8))
  const C10U0: Ranges := Saturated(Point(10))
  const C12U0: Ranges := Saturated(Point(12))
  const C14U0: Ranges := Saturated(Point(14))
  const C16U0: Ranges := Saturated(Point(16))
  const C18U0: Ranges := Saturated(Point(18))
  const C20U0: Ranges := Saturated(Point(20))
  const C22U0: Ranges := Saturated(Point(22))
  const C24U0: Ranges := Saturated(Point(24))
  const C26U0: Ranges := Saturated(Point(26))
  const C28U0: Ranges := Saturated(Point(28))
  const C30U0: Ranges := Saturated(Point(30))
  const C32U0: Ranges := Saturated(Point(32))

  const SATURATED: seq<Ranges> := [C2U0, C4U0, C6U0, C8U0, C10U0, C12U0, C14U0, C16U0,
                                   C18U0, C20U0, C22U0, C24U0, C26U0, C28U0, C30U0, C32U0]

  /**
   * `saturated(r)` keeps `r` as the carbons; its `b()` lowers both ends when
   * they are positive, and its `h()` is `None`, because it has no `u()`.
   */
  lemma SaturatedFacts(r: Range)
    ensures Saturated(r).c == Some(r)
    ensures H(Saturated(r)) == Done(None)
    ensures r.start >= 1 && r.end >= 1 ==> B(Saturated(r)) == Done(Some(Range(r.start - 1, r.end - 1)))
    ensures forall k :: 0 <= k < |SATURATED| ==>
              SATURATED[k].c == Some(Point(2 * (k + 1))) && H(SATURATED[k]) == Done(None)
              && B(SATURATED[k]) == Done(Some(Point(2 * k + 1)))
  {
  }
}
