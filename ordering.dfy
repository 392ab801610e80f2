/**
 * The two sort orders on bonds and the sort itself. `FattyAcid::sort`
 * (src/fatty_acid.rs) keys on `(unsaturation, isomerism, index)`; the
 * columnar adapter keys on `(unsaturation, index, isomerism)`. Both use
 * Rust's derived `Ord`: an absent value sorts before a present one, enum
 * variants by discriminant (Trans = -1 < Cis = 1, One = 1 < Two = 2).
 */
module Ordering {
  import opened Wrappers
  import opened Ints
  import opened FattyAcid

  /** Which tuple the bonds are keyed on. */
  datatype KeyOrder = RecordKey | AdapterKey

  /** Position of an optional unsaturation in the derived order. */
  function UnsaturationRank(u: Option<Unsaturation>): (r: nat)
    ensures r == 0 <==> u.None?
    ensures u == Some(One) ==> r == 1
    ensures u == Some(Two) ==> r == 2
  {
    match u
    case None => 0
    case Some(One) => 1
    case Some(Two) => 2
  }

  /** Position of an optional isomerism in the derived order (by discriminant: Trans first). */
  function IsomerismRank(i: Option<Isomerism>): (r: nat)
    ensures r == 0 <==> i.None?
    ensures i == Some(Trans) ==> r == 1
    ensures i == Some(Cis) ==> r == 2
  {
    match i
    case None => 0
    case Some(Trans) => 1
    case Some(Cis) => 2
  }

  /** Position of an optional index: absent first, then by value. */
  function IndexRank(x: Option<u8>): (r: nat)
    ensures r == 0 <==> x.None?
    ensures x.Some? ==> r == x.value + 1
  {
    match x
    case None => 0
    case Some(v) => v + 1
  }

  /** The sort key of a bond under `ord`. */
  function Key(ord: KeyOrder, b: Unsaturated): (nat, nat, nat) {
    match ord
    case RecordKey => (UnsaturationRank(b.unsaturation), IsomerismRank(b.isomerism), IndexRank(b.index))
    case AdapterKey => (UnsaturationRank(b.unsaturation), IndexRank(b.index), IsomerismRank(b.isomerism))
  }

  /** Lexicographic order on triples. */
  predicate LexLe(k: (nat, nat, nat), l: (nat, nat, nat)) {
    k.0 < l.0 || (k.0 == l.0 && (k.1 < l.1 || (k.1 == l.1 && k.2 <= l.2)))
  }

  predicate Le(ord: KeyOrder, a: Unsaturated, b: Unsaturated) {
    LexLe(Key(ord, a), Key(ord, b))
  }

  /** Each key determines the bond: both orders are total orders on bonds, not mere preorders. */
  lemma KeyInjective(ord: KeyOrder, a: Unsaturated, b: Unsaturated)
    ensures Key(ord, a) == Key(ord, b) ==> a == b
  {
    if Key(ord, a) == Key(ord, b) {
      assert a.unsaturation == b.unsaturation;
      assert a.isomerism == b.isomerism;
      assert a.index == b.index;
    }
  }

  lemma LeTotalOrder(ord: KeyOrder, a: Unsaturated, b: Unsaturated, c: Unsaturated)
    ensures Le(ord, a, a)
    ensures Le(ord, a, b) || Le(ord, b, a)
    ensures Le(ord, a, b) && Le(ord, b, a) ==> a == b
    ensures Le(ord, a, b) && Le(ord, b, c) ==> Le(ord, a, c)
  {
    KeyInjective(ord, a, b);
  }

  /** The two keys disagree: a Cis bond at 5 and a Trans bond at 9 are ordered oppositely. */
  lemma KeysDiffer()
    ensures var a := Unsaturated(Some(5), Some(Cis), Some(One));
            var b := Unsaturated(Some(9), Some(Trans), Some(One));
            Le(RecordKey, b, a) && !Le(RecordKey, a, b) && Le(AdapterKey, a, b) && !Le(AdapterKey, b, a)
  {
  }

  ghost predicate Sorted(ord: KeyOrder, s: seq<Unsaturated>) {
    forall i, j :: 0 <= i < j < |s| ==> Le(ord, s[i], s[j])
  }

  function Insert(ord: KeyOrder, x: Unsaturated, s: seq<Unsaturated>): seq<Unsaturated>
    decreases |s|
  {
    if s == [] then [x]
    else if Le(ord, x, s[0]) then [x] + s
    else [s[0]] + Insert(ord, x, s[1..])
  }

  /** `sort_by_cached_key` under `ord`; which algorithm is immaterial, see `SortedUnique`. */
  function SortBy(ord: KeyOrder, s: seq<Unsaturated>): seq<Unsaturated>
    decreases |s|
  {
    if s == [] then [] else Insert(ord, s[0], SortBy(ord, s[1..]))
  }

  lemma {:induction false} InsertPermutes(ord: KeyOrder, x: Unsaturated, s: seq<Unsaturated>)
    ensures multiset(Insert(ord, x, s)) == multiset(s) + multiset{x}
    decreases |s|
  {
    if s != [] && !Le(ord, x, s[0]) {
      InsertPermutes(ord, x, s[1..]);
      assert s == [s[0]] + s[1..];
    }
  }

  lemma {:induction false} InsertSorted(ord: KeyOrder, x: Unsaturated, s: seq<Unsaturated>)
    requires Sorted(ord, s)
    ensures Sorted(ord, Insert(ord, x, s))
    decreases |s|
  {
    if s == [] {
    } else if Le(ord, x, s[0]) {
      forall i, j | 0 <= i < j < |[x] + s| ensures Le(ord, ([x] + s)[i], ([x] + s)[j]) {
        if i == 0 { LeTotalOrder(ord, x, s[0], s[j - 1]); }
      }
    } else {
      var t := Insert(ord, x, s[1..]);
      InsertSorted(ord, x, s[1..]);
      InsertPermutes(ord, x, s[1..]);
      LeTotalOrder(ord, x, s[0], x);
      forall i, j | 0 <= i < j < |[s[0]] + t| ensures Le(ord, ([s[0]] + t)[i], ([s[0]] + t)[j]) {
        if i == 0 {
          var y := t[j - 1];
          assert y in multiset(t);
          assert y in multiset(s[1..]) + multiset{x};
          if y == x {
          } else {
            assert y in s[1..];
            var k :| 0 <= k < |s[1..]| && s[1..][k] == y;
            assert s[k + 1] == y;
          }
        }
      }
    }
  }

  /** The sort permutes its input and leaves it in ascending key order. */
  lemma {:induction false} SortByCorrect(ord: KeyOrder, s: seq<Unsaturated>)
    ensures multiset(SortBy(ord, s)) == multiset(s)
    ensures |SortBy(ord, s)| == |s|
    ensures Sorted(ord, SortBy(ord, s))
    decreases |s|
  {
    if s != [] {
      SortByCorrect(ord, s[1..]);
      InsertPermutes(ord, s[0], SortBy(ord, s[1..]));
      InsertSorted(ord, s[0], SortBy(ord, s[1..]));
      assert s == [s[0]] + s[1..];
    }
    assert |multiset(SortBy(ord, s))| == |multiset(s)|;
  }

  /** The head of a sorted sequence is below each of its elements. */
  lemma HeadIsLeast(ord: KeyOrder, a: seq<Unsaturated>, x: Unsaturated)
    requires Sorted(ord, a) && x in multiset(a)
    ensures Le(ord, a[0], x)
  {
    var j :| 0 <= j < |a| && a[j] == x;
    if j == 0 { LeTotalOrder(ord, x, x, x); }
  }

  lemma SortedTail(ord: KeyOrder, a: seq<Unsaturated>)
    requires Sorted(ord, a) && a != []
    ensures Sorted(ord, a[1..])
  {
    var t := a[1..];
    forall i, j | 0 <= i < j < |t| ensures Le(ord, t[i], t[j]) {
      assert t[i] == a[i + 1] && t[j] == a[j + 1];
    }
  }

  lemma MultisetTail(a: seq<Unsaturated>, b: seq<Unsaturated>)
    requires a != [] && b != [] && a[0] == b[0] && multiset(a) == multiset(b)
    ensures multiset(a[1..]) == multiset(b[1..])
  {
    var ta, tb := a[1..], b[1..];
    assert a == [a[0]] + ta && b == [b[0]] + tb;
    assert multiset(a) == multiset([a[0]]) + multiset(ta);
    assert multiset(b) == multiset([a[0]]) + multiset(tb);
    assert multiset(ta) == multiset(a) - multiset([a[0]]);
    assert multiset(tb) == multiset(b) - multiset([a[0]]);
  }

  /** Two sorted permutations of the same bonds are equal (the keys are injective). */
  lemma {:induction false} SortedUnique(ord: KeyOrder, a: seq<Unsaturated>, b: seq<Unsaturated>)
    requires Sorted(ord, a) && Sorted(ord, b)
    requires multiset(a) == multiset(b)
    ensures a == b
    decreases |a|
  {
    assert |a| == |multiset(a)| == |multiset(b)| == |b|;
    if a != [] {
      assert a[0] in multiset(a) && b[0] in multiset(b);
      HeadIsLeast(ord, a, b[0]);
      HeadIsLeast(ord, b, a[0]);
      LeTotalOrder(ord, a[0], b[0], a[0]);
      MultisetTail(a, b);
      SortedTail(ord, a);
      SortedTail(ord, b);
      SortedUnique(ord, a[1..], b[1..]);
      assert a == [a[0]] + a[1..] && b == [b[0]] + b[1..];
    }
  }

  /** Sorting depends only on the multiset of bonds, so insertion order does not matter. */
  lemma SortByCanonical(ord: KeyOrder, a: seq<Unsaturated>, b: seq<Unsaturated>)
    requires multiset(a) == multiset(b)
    ensures SortBy(ord, a) == SortBy(ord, b)
  {
    SortByCorrect(ord, a);
    SortByCorrect(ord, b);
    SortedUnique(ord, SortBy(ord, a), SortBy(ord, b));
  }

  /** Sorting sorted bonds changes nothing. */
  lemma SortByIdempotent(ord: KeyOrder, s: seq<Unsaturated>)
    requires Sorted(ord, s)
    ensures SortBy(ord, s) == s
  {
    SortByCorrect(ord, s);
    SortedUnique(ord, SortBy(ord, s), s);
  }

  lemma {:induction false} InsertDegrees(ord: KeyOrder, x: Unsaturated, s: seq<Unsaturated>)
    ensures Degrees(Insert(ord, x, s)) == Degree(x) + Degrees(s)
    decreases |s|
  {
    if s == [] {
      DegreesCons(x, []);
      assert [x] + [] == [x];
    } else if Le(ord, x, s[0]) {
      DegreesCons(x, s);
    } else {
      InsertDegrees(ord, x, s[1..]);
      DegreesCons(s[0], Insert(ord, x, s[1..]));
      DegreesCons(s[0], s[1..]);
      assert [s[0]] + s[1..] == s;
    }
  }

  /** Reordering bonds does not change their total degree. */
  lemma {:induction false} SortByDegrees(ord: KeyOrder, s: seq<Unsaturated>)
    ensures Degrees(SortBy(ord, s)) == Degrees(s)
    decreases |s|
  {
    if s != [] {
      SortByDegrees(ord, s[1..]);
      InsertDegrees(ord, s[0], SortBy(ord, s[1..]));
      DegreesCons(s[0], s[1..]);
      assert [s[0]] + s[1..] == s;
    }
  }

  /** `FattyAcid::sort`: the same record with its bonds in record-key order. */
  function Sort(fa: FattyAcid): FattyAcid {
    fa.(unsaturated := SortBy(RecordKey, fa.unsaturated))
  }

  /**
   * `sort` keeps the carbons, permutes the bonds into `(unsaturation,
   * isomerism, index)` order, keeps `u()`, and yields the same record for
   * any insertion order of the same bonds.
   */
  lemma SortRecord(fa: FattyAcid, other: FattyAcid)
    ensures Sort(fa).carbons == fa.carbons
    ensures multiset(Sort(fa).unsaturated) == multiset(fa.unsaturated)
    ensures Sorted(RecordKey, Sort(fa).unsaturated)
    ensures U(Sort(fa)) == U(fa)
    ensures Sort(Sort(fa)) == Sort(fa)
    ensures other.carbons == fa.carbons && multiset(other.unsaturated) == multiset(fa.unsaturated) ==>
            Sort(other) == Sort(fa)
  {
    SortByCorrect(RecordKey, fa.unsaturated);
    SortByDegrees(RecordKey, fa.unsaturated);
    UIsDegreeSum(fa);
    UIsDegreeSum(Sort(fa));
    SortByIdempotent(RecordKey, Sort(fa).unsaturated);
    if multiset(other.unsaturated) == multiset(fa.unsaturated) {
      SortByCanonical(RecordKey, other.unsaturated, fa.unsaturated);
    }
  }
}
