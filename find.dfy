/**
 * The named-acid filters of `src/fatty_acid/polars/expr/find.rs`: each is
 * a mask testing the carbon count and the bond count, nothing else; the
 * locants and isomers in their names are not looked at.
 */
module Find {
  import opened Wrappers
  import opened Expressions

  /** `carbons().eq(c).and(unsaturated().eq(n))`. */
  function CarbonsAndCount(c: int, n: int, r: Row): (b: Option<bool>)
    ensures b == Some(true) <==> r.carbons == Some(c) && Unsaturated(r) == Some(n)
    ensures b == Some(false) <==> (r.carbons.Some? && r.carbons.value != c)
                                  || (r.unsaturation.Some? && |r.unsaturation.value| != n)
  {
    And(EqLit(Carbons(r), c), EqLit(Unsaturated(r), n))
  }

  function C12U0(r: Row): Option<bool> { CarbonsAndCount(12, 0, r) }
  function C14U0(r: Row): Option<bool> { CarbonsAndCount(14, 0, r) }
  function C16U0(r: Row): Option<bool> { CarbonsAndCount(16, 0, r) }
  function C18U0(r: Row): Option<bool> { CarbonsAndCount(18, 0, r) }
  function C18U1(r: Row): Option<bool> { CarbonsAndCount(18, 1, r) }
  function C18U2Z9Z12(r: Row): Option<bool> { CarbonsAndCount(18, 2, r) }
  function C18U3Z9Z12Z15(r: Row): Option<bool> { CarbonsAndCount(18, 3, r) }
  function C20U5Z5Z8Z11Z14Z17(r: Row): Option<bool> { CarbonsAndCount(20, 5, r) }
  function C22U6Z4Z7Z10Z13Z16Z19(r: Row): Option<bool> { CarbonsAndCount(22, 6, r) }

  /** `FindByName`: the acids by their common names. */
  function Linoleic(r: Row): Option<bool> { C18U2Z9Z12(r) }
  function AlphaLinolenic(r: Row): Option<bool> { C18U3Z9Z12Z15(r) }
  function Eicosapentaenoic(r: Row): Option<bool> { C20U5Z5Z8Z11Z14Z17(r) }
  function Docosahexaenoic(r: Row): Option<bool> { C22U6Z4Z7Z10Z13Z16Z19(r) }

  /** The (carbons, bond count) pair each of the nine `Find` filters tests, in declaration order. */
  const FIND_KEYS: seq<(int, int)> := [(12, 0), (14, 0), (16, 0), (18, 0), (18, 1), (18, 2), (18, 3), (20, 5), (22, 6)]

  function FindMask(k: nat): Mask
    requires k < |FIND_KEYS|
  {
    [C12U0, C14U0, C16U0, C18U0, C18U1, C18U2Z9Z12, C18U3Z9Z12Z15, C20U5Z5Z8Z11Z14Z17, C22U6Z4Z7Z10Z13Z16Z19][k]
  }

  /** Each `Find` filter passes exactly the rows with its carbon count and its bond count. */
  lemma FindKeys(k: nat, r: Row)
    requires k < |FIND_KEYS|
    ensures Feeds(FindMask(k), r) <==> r.carbons == Some(FIND_KEYS[k].0) && Unsaturated(r) == Some(FIND_KEYS[k].1)
  {
  }

  /** The nine filters select pairwise disjoint entries, since their (carbons, count) pairs differ. */
  lemma FindPairwiseDisjoint(p: Profile, i: nat, j: nat)
    requires i < j < |FIND_KEYS|
    ensures Filter(Filter(p, FindMask(i)), FindMask(j)) == []
  {
    forall r ensures !(Feeds(FindMask(i), r) && Feeds(FindMask(j), r)) {
      FindKeys(i, r);
      FindKeys(j, r);
    }
    FilterDisjoint(p, FindMask(i), FindMask(j));
  }

  /**
   * Only the carbons and the number of bonds matter: rows agreeing on
   * those pass or fail every `Find` filter together, whatever their bonds'
   * values; an 18-carbon row with one Two bond is C18:1.
   */
  lemma FindIgnoresBonds(c: int, n: int, r1: Row, r2: Row)
    requires r1.carbons == r2.carbons && Unsaturated(r1) == Unsaturated(r2)
    ensures CarbonsAndCount(c, n, r1) == CarbonsAndCount(c, n, r2)
    ensures Feeds(C18U1, Row(Some(18), Some([Some(2)])))
  {
  }

  /** The common names select exactly the acids their structural names do. */
  lemma NamedAcids(p: Profile)
    ensures Filter(p, Linoleic) == Filter(p, C18U2Z9Z12)
    ensures Filter(p, AlphaLinolenic) == Filter(p, C18U3Z9Z12Z15)
    ensures Filter(p, Eicosapentaenoic) == Filter(p, C20U5Z5Z8Z11Z14Z17)
    ensures Filter(p, Docosahexaenoic) == Filter(p, C22U6Z4Z7Z10Z13Z16Z19)
  {
    FilterSame(p, Linoleic, C18U2Z9Z12);
    FilterSame(p, AlphaLinolenic, C18U3Z9Z12Z15);
    FilterSame(p, Eicosapentaenoic, C20U5Z5Z8Z11Z14Z17);
    FilterSame(p, Docosahexaenoic, C22U6Z4Z7Z10Z13Z16Z19);
  }
}
