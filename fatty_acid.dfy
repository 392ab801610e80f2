/**
 * The scalar fatty-acid record of `src/fatty_acid.rs`: the bond value type,
 * its `i8`/`u8` encodings, the record, and the quantities derived from it
 * (`b`, `c`, `u`, `h`, `ecn`, `s`) with the source's `u8` arithmetic.
 */
module FattyAcid {
  import opened Wrappers
  import opened Ints

  /** Geometry of a double bond; the Rust discriminants are Cis = 1, Trans = -1. */
  datatype Isomerism = Cis | Trans

  /** Degrees of unsaturation a bond contributes; discriminants One = 1, Two = 2. */
  datatype Unsaturation = One | Two

  /** One unsaturated bond; every field may be unknown. */
  datatype Unsaturated = Unsaturated(
    index: Option<u8>,
    isomerism: Option<Isomerism>,
    unsaturation: Option<Unsaturation>)

  /** The record: a carbon count and the bonds in their stored order. */
  datatype FattyAcid = FattyAcid(carbons: u8, unsaturated: seq<Unsaturated>)

  // ---------------------------------------------------------------------
  // Encodings

  /** `i8::from(Isomerism)`. */
  function IsomerismToI8(x: Isomerism): (r: i8)
    ensures r == 1 || r == -1
  {
    match x
    case Cis => 1
    case Trans => -1
  }

  /** `Isomerism::try_from(i8)`: the sign decides, zero is rejected with itself. */
  function IsomerismTryFrom(v: i8): (r: Result<Isomerism, i8>)
    ensures r.Err? <==> v == 0
    ensures r.Err? ==> r.error == v
    ensures r == Ok(Cis) <==> v > 0
    ensures r == Ok(Trans) <==> v < 0
  {
    if v > 0 then Ok(Cis) else if v < 0 then Ok(Trans) else Err(v)
  }

  /** The discriminant `Unsaturation as u8`. */
  function UnsaturationToU8(x: Unsaturation): (r: u8)
    ensures r == 1 || r == 2
  {
    match x
    case One => 1
    case Two => 2
  }

  /** `Unsaturation::try_from(u8)`: exactly 1 and 2 are accepted. */
  function UnsaturationTryFrom(v: u8): (r: Result<Unsaturation, u8>)
    ensures r.Ok? <==> v == 1 || v == 2
    ensures r.Err? ==> r.error == v
  {
    if v == 1 then Ok(One) else if v == 2 then Ok(Two) else Err(v)
  }

  /** Decoding the encoding gives the value back, for both enums. */
  lemma ConversionsRoundTrip(x: Isomerism, y: Unsaturation)
    ensures IsomerismTryFrom(IsomerismToI8(x)) == Ok(x)
    ensures UnsaturationTryFrom(UnsaturationToU8(y)) == Ok(y)
    ensures IsomerismTryFrom(0) == Err(0)
  {
  }

  /** The converse of `ConversionsRoundTrip`: each accepted code is the encoding of the value it decodes to. */
  lemma ConversionsOnlyEncodings(v: i8, w: u8)
    ensures IsomerismTryFrom(v).Ok? ==> IsomerismToI8(IsomerismTryFrom(v).value) == (if v > 0 then 1 else -1)
    ensures UnsaturationTryFrom(w).Ok? ==> UnsaturationToU8(UnsaturationTryFrom(w).value) == w
  {
  }

  // ---------------------------------------------------------------------
  // Construction

  /** `FattyAcid::new`: a saturated record. */
  function New(carbons: u8): (r: FattyAcid)
    ensures r.carbons == carbons && r.unsaturated == []
  {
    FattyAcid(carbons, [])
  }

  const C2U0: FattyAcid := New(2)
  const C4U0: FattyAcid := New(4)
  const C6U0: FattyAcid := New(6)
  const C8U0: FattyAcid := New(8)
  const C10U0: FattyAcid := New(10)
  const C12U0: FattyAcid := New(12)
  const C14U0: FattyAcid := New(14)
  const C16U0: FattyAcid := New(16)
  const C18U0: FattyAcid := New(18)
  const C20U0: FattyAcid := New(20)
  const C22U0: FattyAcid := New(22)
  const C24U0: FattyAcid := New(24)
  const C26U0: FattyAcid := New(26)
  const C28U0: FattyAcid := New(28)
  const C30U0: FattyAcid := New(30)
  const C32U0: FattyAcid := New(32)

  /** The saturated constants, in the order they are declared. */
  const SATURATED: seq<FattyAcid> := [C2U0, C4U0, C6U0, C8U0, C10U0, C12U0, C14U0, C16U0,
                                      C18U0, C20U0, C22U0, C24U0, C26U0, C28U0, C30U0, C32U0]

  /** A panic raised by one of the `assert!`s of `fatty_acid!`, or by overflow. */
  datatype MacroPanic = ZeroCarbons | ZeroLocant(locant: i8) | LocantNotBelowCarbons(locant: i8) | MacroOverflow

  /** The first assertion a locant fails in a record of `c` carbons, if any. */
  function LocantFault(c: u8, i: i8): (r: Option<MacroPanic>)
    ensures r.None? <==> i != 0 && i < c && i != -128
  {
    if i == 0 then Some(ZeroLocant(i))
    else if !(i < c) then Some(LocantNotBelowCarbons(i))
    else if i == -128 then Some(MacroOverflow)
    else None
  }

  /** `Unsaturation::try_from(_count).ok()` for the group number `k`. */
  function GroupUnsaturation(k: u8): (r: Option<Unsaturation>)
    ensures r == Some(One) <==> k == 1
    ensures r == Some(Two) <==> k == 2
  {
    match UnsaturationTryFrom(k)
    case Ok(u) => Some(u)
    case Err(_) => None
  }

  /** The bond the macro pushes for a valid locant `i` of group `k`. */
  function LocantBond(i: i8, k: u8): (r: Unsaturated)
    requires i != 0 && i != -128
    ensures r.index == Some(if i < 0 then -i else i)
    ensures r.isomerism == Some(if i > 0 then Cis else Trans)
    ensures r.unsaturation == GroupUnsaturation(k)
  {
    Unsaturated(
      index := Some(Abs8(i).value),
      isomerism := if IsomerismTryFrom(i).Ok? then Some(IsomerismTryFrom(i).value) else None,
      unsaturation := GroupUnsaturation(k))
  }

  /** Pushing the bonds of one group's locants onto `acc`, stopping at the first panic. */
  function PushLocants(c: u8, locants: seq<i8>, k: nat, acc: seq<Unsaturated>): Result<seq<Unsaturated>, MacroPanic>
    requires locants != [] ==> k <= 255
    decreases |locants|
  {
    if locants == [] then Ok(acc)
    else match LocantFault(c, locants[0])
      case Some(p) => Err(p)
      case None => PushLocants(c, locants[1..], k, acc + [LocantBond(locants[0], k)])
  }

  /** No group has a locant. */
  predicate NoLocants(groups: seq<seq<i8>>) {
    forall g :: 0 <= g < |groups| ==> groups[g] == []
  }

  const I32_MAX: nat := 0x7fff_ffff

  /**
   * The largest value of `_count`'s type. A locant anywhere in the
   * invocation makes `_count` the argument of `Unsaturation::try_from`,
   * which exists only for `u8`; without one the literal falls back to `i32`.
   */
  function CountMax(groups: seq<seq<i8>>): (r: nat)
    ensures r == 255 <==> !NoLocants(groups)
  {
    if NoLocants(groups) then I32_MAX else 255
  }

  /** The groups from `count + 1` on, `count` being the value of `_count` so far and `max` the largest its type holds. */
  function PushGroups(c: u8, groups: seq<seq<i8>>, max: nat, count: nat, acc: seq<Unsaturated>): Result<FattyAcid, MacroPanic>
    requires count <= max && (max == 255 || NoLocants(groups))
    decreases |groups|
  {
    if groups == [] then Ok(FattyAcid(c, acc))
    else if count == max then Err(MacroOverflow)
    else
      match PushLocants(c, groups[0], count + 1, acc)
      case Err(p) => Err(p)
      case Ok(acc') => PushGroups(c, groups[1..], max, count + 1, acc')
  }

  /** `fatty_acid!(c; g1...; g2...; ...)`: bond groups are separated by `;`. */
  function MacroSpec(c: u8, groups: seq<seq<i8>>): Result<FattyAcid, MacroPanic> {
    if c == 0 then Err(ZeroCarbons) else PushGroups(c, groups, CountMax(groups), 0, [])
  }

  /** The macro as the source runs it: nested loops pushing onto the record's bond list. */
  method Macro(c: u8, groups: seq<seq<i8>>) returns (r: Result<FattyAcid, MacroPanic>)
    ensures r == MacroSpec(c, groups)
  {
    if c == 0 {
      return Err(ZeroCarbons);
    }
    var fattyAcid := New(c);
    var max := CountMax(groups);
    var count: nat := 0;
    var g := 0;
    while g < |groups|
      invariant 0 <= g <= |groups|
      invariant count <= max && (max == 255 || NoLocants(groups[g..]))
      invariant fattyAcid.carbons == c
      invariant PushGroups(c, groups[g..], max, count, fattyAcid.unsaturated) == MacroSpec(c, groups)
    {
      assert groups[g..][0] == groups[g] && groups[g..][1..] == groups[g + 1..];
      if count == max {
        return Err(MacroOverflow);
      }
      count := count + 1;
      var locants := groups[g];
      assert locants != [] ==> count <= 255;
      var j := 0;
      while j < |locants|
        invariant 0 <= j <= |locants|
        invariant locants != [] ==> count <= 255
        invariant fattyAcid.carbons == c
        invariant (match PushLocants(c, locants[j..], count, fattyAcid.unsaturated)
                   case Err(p) => Err(p)
                   case Ok(acc') => PushGroups(c, groups[g + 1..], max, count, acc')) == MacroSpec(c, groups)
      {
        assert locants[j..][0] == locants[j] && locants[j..][1..] == locants[j + 1..];
        var i := locants[j];
        if i == 0 {
          return Err(ZeroLocant(i));
        }
        if !(i < c) {
          return Err(LocantNotBelowCarbons(i));
        }
        if i == -128 {
          return Err(MacroOverflow);
        }
        fattyAcid := fattyAcid.(unsaturated := fattyAcid.unsaturated + [LocantBond(i, count)]);
        j := j + 1;
      }
      g := g + 1;
    }
    return Ok(fattyAcid);
  }

  // ---------------------------------------------------------------------
  // What the macro builds, stated without its loop structure

  /** Every locant passes the macro's assertions. */
  ghost predicate LocantsValid(c: u8, groups: seq<seq<i8>>) {
    forall g, j :: 0 <= g < |groups| && 0 <= j < |groups[g]| ==>
      groups[g][j] != 0 && groups[g][j] < c && groups[g][j] != -128
  }

  /** The bonds of the groups, flattened in argument order, group `g` numbered `k + g + 1`. */
  function ExpectedBonds(groups: seq<seq<i8>>, k: nat): seq<Unsaturated>
    requires forall g, j :: 0 <= g < |groups| && 0 <= j < |groups[g]| ==> groups[g][j] != 0 && groups[g][j] != -128
    requires NoLocants(groups) || k + |groups| <= 255
    decreases |groups|
  {
    if groups == [] then []
    else
      assert groups[0] != [] ==> !NoLocants(groups);
      seq(|groups[0]|, j requires 0 <= j < |groups[0]| => LocantBond(groups[0][j], k + 1))
      + ExpectedBonds(groups[1..], k + 1)
  }

  lemma {:induction false} PushLocantsOk(c: u8, locants: seq<i8>, k: nat, acc: seq<Unsaturated>)
    requires locants != [] ==> k <= 255
    ensures PushLocants(c, locants, k, acc).Ok? <==>
            forall j :: 0 <= j < |locants| ==> locants[j] != 0 && locants[j] < c && locants[j] != -128
    ensures PushLocants(c, locants, k, acc).Ok? ==>
            PushLocants(c, locants, k, acc).value ==
            acc + seq(|locants|, j requires 0 <= j < |locants| && locants[j] != 0 && locants[j] != -128 => LocantBond(locants[j], k))
    decreases |locants|
  {
    if locants != [] && LocantFault(c, locants[0]).None? {
      PushLocantsOk(c, locants[1..], k, acc + [LocantBond(locants[0], k)]);
      if PushLocants(c, locants, k, acc).Ok? {
        var tail := locants[1..];
        assert forall j :: 0 <= j < |tail| ==> tail[j] == locants[j + 1];
      }
    }
  }

  lemma {:induction false} PushGroupsOk(c: u8, groups: seq<seq<i8>>, max: nat, count: nat, acc: seq<Unsaturated>)
    requires count <= max && (max == 255 || NoLocants(groups))
    ensures PushGroups(c, groups, max, count, acc).Ok? <==> count + |groups| <= max && LocantsValid(c, groups)
    ensures PushGroups(c, groups, max, count, acc).Ok? ==>
            PushGroups(c, groups, max, count, acc).value == FattyAcid(c, acc + ExpectedBonds(groups, count))
    decreases |groups|
  {
    if groups != [] {
      var rest := groups[1..];
      assert forall g :: 0 <= g < |rest| ==> rest[g] == groups[g + 1];
      if count < max {
        assert groups[0] != [] ==> !NoLocants(groups);
        PushLocantsOk(c, groups[0], count + 1, acc);
        match PushLocants(c, groups[0], count + 1, acc)
        case Err(_) =>
          assert !LocantsValid(c, groups);
        case Ok(acc') =>
          PushGroupsOk(c, rest, max, count + 1, acc');
          if LocantsValid(c, rest) {
            assert LocantsValid(c, groups) by {
              forall g, j | 0 <= g < |groups| && 0 <= j < |groups[g]|
                ensures groups[g][j] != 0 && groups[g][j] < c && groups[g][j] != -128
              {
                if g > 0 { assert groups[g] == rest[g - 1]; }
              }
            }
          }
      }
    }
  }

  /**
   * `fatty_acid!` succeeds exactly when the carbon count is non-zero, the
   * groups fit `_count`'s type (at most 255 when any group has a locant,
   * otherwise at most `i32::MAX`) and every locant is a non-zero value below
   * the carbon count (a signed comparison, so every negative locant but -128
   * passes); the bonds are then the locants' bonds in argument order, unsorted.
   */
  lemma MacroCharacterised(c: u8, groups: seq<seq<i8>>)
    ensures MacroSpec(c, groups) == Err(ZeroCarbons) <==> c == 0
    ensures MacroSpec(c, groups).Ok? <==>
            c > 0 && LocantsValid(c, groups) && (if NoLocants(groups) then |groups| <= I32_MAX else |groups| <= 255)
    ensures MacroSpec(c, groups).Ok? ==> MacroSpec(c, groups) == Ok(FattyAcid(c, ExpectedBonds(groups, 0)))
    ensures c > 0 && NoLocants(groups) && |groups| <= I32_MAX ==> MacroSpec(c, groups) == Ok(New(c))
  {
    if c > 0 {
      var max := CountMax(groups);
      PushGroupsOk(c, groups, max, 0, []);
      if PushGroups(c, groups, max, 0, []).Ok? {
        assert [] + ExpectedBonds(groups, 0) == ExpectedBonds(groups, 0);
      }
      if PushGroups(c, groups, max, 0, []).Err? {
        assert PushGroups(c, groups, max, 0, []) != Err(ZeroCarbons) by {
          PushGroupsNeverZeroCarbons(c, groups, max, 0, []);
        }
      }
      if NoLocants(groups) && |groups| <= I32_MAX {
        EmptyGroupsNoBonds(groups, 0);
      }
    }
  }

  lemma {:induction false} EmptyGroupsNoBonds(groups: seq<seq<i8>>, k: nat)
    requires NoLocants(groups)
    ensures ExpectedBonds(groups, k) == []
    decreases |groups|
  {
    if groups != [] {
      EmptyGroupsNoBonds(groups[1..], k + 1);
    }
  }

  /** 256 empty groups: `_count` is an `i32` here, so there is no overflow, unlike with one locant more. */
  lemma EmptyGroupsDoNotOverflow()
    ensures MacroSpec(18, seq(256, _ => [])) == Ok(New(18))
    ensures MacroSpec(18, seq(255, _ => []) + [[9]]) == Err(MacroOverflow)
  {
    MacroCharacterised(18, seq(256, _ => []));
    var gs: seq<seq<i8>> := seq(255, _ => []) + [[9]];
    assert gs[255] == [9];
    SkipEmptyGroups(18, seq(255, _ => []), [[9]], 255, 0, []);
  }

  /** Empty groups only advance `_count`. */
  lemma {:induction false} SkipEmptyGroups(c: u8, empty: seq<seq<i8>>, rest: seq<seq<i8>>, max: nat, count: nat, acc: seq<Unsaturated>)
    requires NoLocants(empty) && count + |empty| <= max && (max == 255 || NoLocants(rest))
    ensures PushGroups(c, empty + rest, max, count, acc) == PushGroups(c, rest, max, count + |empty|, acc)
    decreases |empty|
  {
    if empty != [] {
      var all := empty + rest;
      assert all[0] == [] && all[1..] == empty[1..] + rest;
      assert max == 255 || NoLocants(all) by {
        if max != 255 {
          forall g | 0 <= g < |all| ensures all[g] == [] {
            if g >= |empty| { assert all[g] == rest[g - |empty|]; }
          }
        }
      }
      SkipEmptyGroups(c, empty[1..], rest, max, count + 1, acc);
    } else {
      assert empty + rest == rest;
    }
  }

  lemma {:induction false} PushGroupsNeverZeroCarbons(c: u8, groups: seq<seq<i8>>, max: nat, count: nat, acc: seq<Unsaturated>)
    requires count <= max && (max == 255 || NoLocants(groups))
    ensures PushGroups(c, groups, max, count, acc) != Err(ZeroCarbons)
    decreases |groups|
  {
    if groups != [] && count < max {
      assert groups[0] != [] ==> !NoLocants(groups);
      PushLocantsNeverZeroCarbons(c, groups[0], count + 1, acc);
      match PushLocants(c, groups[0], count + 1, acc)
      case Err(_) =>
      case Ok(acc') => PushGroupsNeverZeroCarbons(c, groups[1..], max, count + 1, acc');
    }
  }

  lemma {:induction false} PushLocantsNeverZeroCarbons(c: u8, locants: seq<i8>, k: nat, acc: seq<Unsaturated>)
    requires locants != [] ==> k <= 255
    ensures PushLocants(c, locants, k, acc) != Err(ZeroCarbons)
    decreases |locants|
  {
    if locants != [] && LocantFault(c, locants[0]).None? {
      PushLocantsNeverZeroCarbons(c, locants[1..], k, acc + [LocantBond(locants[0], k)]);
    }
  }

  /** Examples of the rejections the record's documentation lists: index 0, 18 and 19 on 18 carbons; 9 is accepted. */
  lemma MacroValidationExamples()
    ensures MacroSpec(18, [[0]]) == Err(ZeroLocant(0))
    ensures MacroSpec(18, [[18]]) == Err(LocantNotBelowCarbons(18))
    ensures MacroSpec(18, [[19]]) == Err(LocantNotBelowCarbons(19))
    ensures MacroSpec(18, [[-19]]) == Ok(FattyAcid(18, [Unsaturated(Some(19), Some(Trans), Some(One))]))
    ensures MacroSpec(18, [[9]]) == Ok(FattyAcid(18, [Unsaturated(Some(9), Some(Cis), Some(One))]))
    ensures MacroSpec(0, []) == Err(ZeroCarbons)
  {
    assert [[18]][1..] == [] && [[19]][1..] == [] && [[9]][1..] == [] && [[-19]][1..] == [];
    assert [9][1..] == [] && [-19][1..] == [];
    assert LocantFault(18, 9).None? && LocantFault(18, -19).None?;
    assert [] + [LocantBond(9, 1)] == [LocantBond(9, 1)];
    assert [] + [LocantBond(-19, 1)] == [LocantBond(-19, 1)];
    assert PushLocants(18, [9], 1, []) == Ok([LocantBond(9, 1)]);
    assert PushLocants(18, [-19], 1, []) == Ok([LocantBond(-19, 1)]);
  }

  // ---------------------------------------------------------------------
  // Derived quantities (`FattyAcidExt for &FattyAcid`)

  /** `b()`: `carbons.saturating_sub(1)`. */
  function B(fa: FattyAcid): (r: u8)
    ensures r == if fa.carbons >= 1 then fa.carbons - 1 else 0
  {
    SaturatingSub8(fa.carbons, 1)
  }

  /** `c()`: `b() + 1`, which cannot overflow because `b() <= 254`. */
  function C(fa: FattyAcid): (r: u8)
    ensures fa.carbons >= 1 ==> r == fa.carbons
    ensures fa.carbons == 0 ==> r == 1
  {
    B(fa) + 1
  }

  /** The degree of unsaturation a bond contributes; an unknown kind counts as One (the default). */
  function Degree(b: Unsaturated): (r: nat)
    ensures r == 1 || r == 2
    ensures r == 2 <==> b.unsaturation == Some(Two)
  {
    match b.unsaturation
    case Some(Two) => 2
    case _ => 1
  }

  /** The total degree of unsaturation, in unbounded arithmetic. */
  function Degrees(bonds: seq<Unsaturated>): nat {
    if bonds == [] then 0 else Degrees(bonds[..|bonds| - 1]) + Degree(bonds[|bonds| - 1])
  }

  /** The fold of `u()`: `sum + 1` or `sum + 2` per bond, left to right, in `u8`. */
  function FoldU(acc: u8, bonds: seq<Unsaturated>): Eval<u8>
    decreases |bonds|
  {
    if bonds == [] then Done(acc)
    else match Add8(acc, Degree(bonds[0]))
      case Overflow => Overflow
      case Done(sum) => FoldU(sum, bonds[1..])
  }

  /** `u()`. */
  function U(fa: FattyAcid): Eval<u8> {
    FoldU(0, fa.unsaturated)
  }

  lemma {:induction false} DegreesCons(b: Unsaturated, bonds: seq<Unsaturated>)
    ensures Degrees([b] + bonds) == Degree(b) + Degrees(bonds)
    decreases |bonds|
  {
    if bonds != [] {
      var init := bonds[..|bonds| - 1];
      assert ([b] + bonds)[..|[b] + bonds| - 1] == [b] + init;
      DegreesCons(b, init);
    }
  }

  lemma {:induction false} DegreesAppend(a: seq<Unsaturated>, b: Unsaturated)
    ensures Degrees(a + [b]) == Degrees(a) + Degree(b)
  {
    assert (a + [b])[..|a + [b]| - 1] == a;
  }

  lemma {:induction false} FoldUIsSum(acc: u8, bonds: seq<Unsaturated>)
    ensures FoldU(acc, bonds).Done? <==> acc + Degrees(bonds) < 256
    ensures FoldU(acc, bonds).Done? ==> FoldU(acc, bonds).value == acc + Degrees(bonds)
    decreases |bonds|
  {
    if bonds != [] {
      DegreesCons(bonds[0], bonds[1..]);
      assert [bonds[0]] + bonds[1..] == bonds;
      if acc + Degree(bonds[0]) < 256 {
        FoldUIsSum(acc + Degree(bonds[0]), bonds[1..]);
      }
    }
  }

  /** `u()` is the total degree (2 per Two bond, 1 otherwise), and panics exactly when that exceeds 255. */
  lemma UIsDegreeSum(fa: FattyAcid)
    ensures U(fa).Done? <==> Degrees(fa.unsaturated) <= 255
    ensures U(fa).Done? ==> U(fa).value == Degrees(fa.unsaturated)
  {
    FoldUIsSum(0, fa.unsaturated);
  }

  /** Appending a bond raises `u()` by exactly that bond's degree, 1 or 2. */
  lemma UAppend(fa: FattyAcid, b: Unsaturated)
    requires U(fa).Done?
    requires U(fa.(unsaturated := fa.unsaturated + [b])).Done?
    ensures U(fa.(unsaturated := fa.unsaturated + [b])).value == U(fa).value + Degree(b)
  {
    UIsDegreeSum(fa);
    UIsDegreeSum(fa.(unsaturated := fa.unsaturated + [b]));
    DegreesAppend(fa.unsaturated, b);
  }

  /** `h()`: `2 * c() - 2 * u()`, each step in `u8`. */
  function H(fa: FattyAcid): Eval<u8> {
    match Mul8(2, C(fa))
    case Overflow => Overflow
    case Done(twoC) =>
      match U(fa)
      case Overflow => Overflow
      case Done(u) =>
        match Mul8(2, u)
        case Overflow => Overflow
        case Done(twoU) => Sub8(twoC, twoU)
  }

  /** `ecn()`: `c() - 2 * u()`, each step in `u8`. */
  function Ecn(fa: FattyAcid): Eval<u8> {
    match U(fa)
    case Overflow => Overflow
    case Done(u) =>
      match Mul8(2, u)
      case Overflow => Overflow
      case Done(twoU) => Sub8(C(fa), twoU)
  }

  /** `s()`: `u() == 0`. */
  function S(fa: FattyAcid): Eval<bool> {
    match U(fa)
    case Overflow => Overflow
    case Done(u) => Done(u == 0)
  }

  /**
   * `h() = 2C - 2U` and `ecn() = C - 2U` whenever they are defined, and they
   * are defined exactly when every intermediate value fits in `u8`.
   */
  lemma HydrogensAndEcn(fa: FattyAcid)
    ensures H(fa).Done? <==> 2 * C(fa) <= 255 && 2 * Degrees(fa.unsaturated) <= 2 * C(fa)
    ensures H(fa).Done? ==> H(fa).value == 2 * C(fa) - 2 * Degrees(fa.unsaturated)
    ensures Ecn(fa).Done? <==> 2 * Degrees(fa.unsaturated) <= C(fa)
    ensures Ecn(fa).Done? ==> Ecn(fa).value == C(fa) - 2 * Degrees(fa.unsaturated)
  {
    UIsDegreeSum(fa);
  }

  lemma {:induction false} DegreesZero(bonds: seq<Unsaturated>)
    ensures Degrees(bonds) == 0 <==> bonds == []
    ensures Degrees(bonds) >= |bonds|
  {
    if bonds != [] {
      DegreesZero(bonds[..|bonds| - 1]);
    }
  }

  /** `s()` holds exactly for a record without bonds (it panics only when `u()` does). */
  lemma SaturatedIffNoBonds(fa: FattyAcid)
    ensures S(fa).Done? <==> U(fa).Done?
    ensures S(fa).Done? ==> (S(fa).value <==> U(fa).value == 0)
    ensures S(fa).Done? ==> (S(fa).value <==> fa.unsaturated == [])
  {
    UIsDegreeSum(fa);
    DegreesZero(fa.unsaturated);
  }

  /** `new(c)` and the `C*U0` constants are saturated records with `c` carbons. */
  lemma NewSaturated(c: u8)
    ensures New(c).carbons == c
    ensures U(New(c)) == Done(0) && S(New(c)) == Done(true)
    ensures c >= 1 ==> C(New(c)) == c && B(New(c)) == c - 1
    ensures c >= 1 && 2 * c <= 255 ==> H(New(c)) == Done(2 * c)
    ensures c >= 1 ==> Ecn(New(c)) == Done(c)
    ensures forall k :: 0 <= k < |SATURATED| ==> SATURATED[k].carbons == 2 * (k + 1) && SATURATED[k].unsaturated == []
  {
  }

  /** Example: the 18-carbon saturated acid has 36 hydrogens. */
  lemma HydrogensOfC18U0()
    ensures H(C18U0) == Done(36)
  {
  }
}
