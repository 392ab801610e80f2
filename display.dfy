/**
 * The nomenclature renderer of `src/fatty_acid/display.rs`. `Fmt` writes
 * fragments one after another as the Rust `fmt` does; `Render` is the
 * string it produces. Numbers go through the formatter's width and zero
 * flag, separators through `write_str`, which ignores them.
 */
module Display {
  import opened Wrappers
  import opened Ints
  import opened FattyAcid

  datatype Notation = Prefix | Suffix
  datatype Elision = Explicit | Implicit

  /** `Elision::default()`. */
  const DEFAULT_ELISION: Elision := Implicit

  /** The separators: before the carbons, before the bond count, before the first and the later locants. */
  datatype Separators = Separators(c: string, u: string, i0: string, i1: string)

  datatype Options = Options(separators: Separators, notation: Notation, elision: Elision)

  const ID: Options := Options(Separators("c", "u", "", ""), Prefix, Explicit)
  const COMMON: Options := Options(Separators("", ":", "Δ", ","), Suffix, Implicit)

  /**
   * The formatter flags `fmt` reads: `{:#}` sets `alternate`, `{:0w}` sets a
   * width `w` with the zero flag; without the zero flag a number is padded
   * on the left with spaces.
   */
  datatype Formatter = Formatter(alternate: bool, width: nat, zero: bool)

  const PLAIN: Formatter := Formatter(false, 0, false)

  // ---------------------------------------------------------------------
  // Decimal numerals

  function DigitChar(d: nat): (ch: char)
    requires d < 10
    ensures '0' <= ch <= '9'
  {
    "0123456789"[d]
  }

  predicate IsDigit(ch: char) {
    '0' <= ch <= '9'
  }

  function DigitValue(ch: char): (d: nat)
    requires IsDigit(ch)
    ensures d < 10
  {
    ch as int - '0' as int
  }

  /** `Display` of an unsigned integer: its decimal digits, without leading zeros. */
  function Digits(n: nat): (s: string)
    decreases n
  {
    if n < 10 then [DigitChar(n)] else Digits(n / 10) + [DigitChar(n % 10)]
  }

  /** The number a string of decimal digits denotes. */
  function Value(s: string): nat
    requires forall k :: 0 <= k < |s| ==> IsDigit(s[k])
  {
    if s == [] then 0 else 10 * Value(s[..|s| - 1]) + DigitValue(s[|s| - 1])
  }

  /** Digits are a faithful numeral: non-empty, decimal, no leading zero, and denoting `n`. */
  lemma {:induction false} DigitsRoundTrip(n: nat)
    ensures |Digits(n)| >= 1
    ensures forall k :: 0 <= k < |Digits(n)| ==> IsDigit(Digits(n)[k])
    ensures Digits(n)[0] != '0' || n == 0
    ensures Value(Digits(n)) == n
    decreases n
  {
    if n >= 10 {
      DigitsRoundTrip(n / 10);
      var d := Digits(n);
      assert d[..|d| - 1] == Digits(n / 10);
      assert DigitValue(DigitChar(n % 10)) == n % 10 by {
        assert "0123456789"[n % 10] as int - '0' as int == n % 10;
      }
    } else {
      assert DigitValue(DigitChar(n)) == n by {
        assert "0123456789"[n] as int - '0' as int == n;
      }
      assert Digits(n)[..0] == [];
    }
  }

  /** A run of `k` copies of `ch`. */
  function Fill(k: nat, ch: char): (s: string)
    ensures |s| == k && forall j :: 0 <= j < k ==> s[j] == ch
  {
    seq(k, _ => ch)
  }

  /** A number as the formatter writes it: right-aligned in at least `width` characters. */
  function Pad(n: nat, f: Formatter): string {
    var d := Digits(n);
    if |d| >= f.width then d else Fill(f.width - |d|, if f.zero then '0' else ' ') + d
  }

  lemma {:induction false} ValueLeadingZeros(k: nat, d: string)
    requires forall j :: 0 <= j < |d| ==> IsDigit(d[j])
    ensures forall j :: 0 <= j < |Fill(k, '0') + d| ==> IsDigit((Fill(k, '0') + d)[j])
    ensures Value(Fill(k, '0') + d) == Value(d)
    decreases |d|
  {
    var s := Fill(k, '0') + d;
    if d == [] {
      assert s == Fill(k, '0');
      ValueZeros(k);
    } else {
      var init := d[..|d| - 1];
      assert s[..|s| - 1] == Fill(k, '0') + init;
      ValueLeadingZeros(k, init);
    }
  }

  lemma {:induction false} ValueZeros(k: nat)
    ensures Value(Fill(k, '0')) == 0
    decreases k
  {
    if k > 0 {
      assert Fill(k, '0')[..k - 1] == Fill(k - 1, '0');
      ValueZeros(k - 1);
    }
  }

  /**
   * Width pads a number to at least `width` characters, on the left, with
   * zeros under the zero flag; the padded digits still denote the number.
   */
  lemma PadWidth(n: nat, f: Formatter)
    ensures |Pad(n, f)| == if |Digits(n)| >= f.width then |Digits(n)| else f.width
    ensures |Pad(n, f)| >= f.width
    ensures Pad(n, f)[|Pad(n, f)| - |Digits(n)|..] == Digits(n)
    ensures forall j :: 0 <= j < |Pad(n, f)| - |Digits(n)| ==> Pad(n, f)[j] == (if f.zero then '0' else ' ')
    ensures f.zero ==> (forall j :: 0 <= j < |Pad(n, f)| ==> IsDigit(Pad(n, f)[j])) && Value(Pad(n, f)) == n
  {
    DigitsRoundTrip(n);
    var d := Digits(n);
    if |d| < f.width && f.zero {
      ValueLeadingZeros(f.width - |d|, d);
    }
  }

  // ---------------------------------------------------------------------
  // The record renderer

  /** What the first bond contributes in alternate mode: its separator and locant, only if it has an index. */
  function FirstLocant(b: Unsaturated, sep: Separators, f: Formatter): string {
    if b.index.Some? then sep.i0 + Pad(b.index.value, f) else ""
  }

  /** What each later bond contributes: always its separator, then its locant if it has one. */
  function LaterLocant(b: Unsaturated, sep: Separators, f: Formatter): string {
    sep.i1 + (if b.index.Some? then Pad(b.index.value, f) else "")
  }

  function LaterLocants(bonds: seq<Unsaturated>, sep: Separators, f: Formatter): string {
    if bonds == [] then ""
    else LaterLocants(bonds[..|bonds| - 1], sep, f) + LaterLocant(bonds[|bonds| - 1], sep, f)
  }

  function Locants(bonds: seq<Unsaturated>, sep: Separators, f: Formatter): string {
    if bonds == [] then "" else FirstLocant(bonds[0], sep, f) + LaterLocants(bonds[1..], sep, f)
  }

  /** The string `fmt` writes for `fa` under `opts` and the formatter flags `f`. */
  function Render(fa: FattyAcid, opts: Options, f: Formatter): string {
    var sep := opts.separators;
    sep.c + Pad(fa.carbons, f) + sep.u + Pad(|fa.unsaturated|, f)
    + (if f.alternate then Locants(fa.unsaturated, sep, f) else "")
  }

  /** The alternate-mode tail of `fmt`: the bonds' locants written one after another. */
  method FmtLocants(bonds: seq<Unsaturated>, sep: Separators, f: Formatter) returns (out: string)
    ensures out == Locants(bonds, sep, f)
  {
    if |bonds| == 0 {
      return "";
    }
    var first := bonds[0];
    if first.index.Some? {
      out := sep.i0;
      out := out + Pad(first.index.value, f);
    } else {
      out := "";
    }
    var i := 1;
    while i < |bonds|
      invariant 1 <= i <= |bonds|
      invariant out == FirstLocant(first, sep, f) + LaterLocants(bonds[1..i], sep, f)
    {
      var b := bonds[i];
      assert bonds[1..i + 1][..i - 1] == bonds[1..i];
      ghost var before := out;
      out := out + sep.i1;
      if b.index.Some? {
        out := out + Pad(b.index.value, f);
      }
      assert out == before + LaterLocant(b, sep, f);
      i := i + 1;
    }
    assert bonds[1..i] == bonds[1..];
  }

  /** `<Display<T> as fmt::Display>::fmt`, writing fragment by fragment onto `out`. */
  method Fmt(fa: FattyAcid, opts: Options, f: Formatter) returns (out: string)
    ensures out == Render(fa, opts, f)
  {
    var sep := opts.separators;
    out := sep.c;
    out := out + Pad(fa.carbons, f);
    out := out + sep.u;
    out := out + Pad(|fa.unsaturated|, f);
    if f.alternate {
      var locants := FmtLocants(fa.unsaturated, sep, f);
      out := out + locants;
    } else {
      assert out + "" == out;
    }
  }

  /** The compact form is always a prefix of the alternate form, and equals it when there are no bonds. */
  lemma CompactPrefixOfAlternate(fa: FattyAcid, opts: Options, width: nat, zero: bool)
    ensures var compact := Render(fa, opts, Formatter(false, width, zero));
            var alternate := Render(fa, opts, Formatter(true, width, zero));
            compact <= alternate && (fa.unsaturated == [] ==> compact == alternate)
  {
  }

  /** The rendering depends on the separators only: `notation` and `elision` are never consulted. */
  lemma RenderIgnoresNotationAndElision(fa: FattyAcid, opts: Options, notation: Notation, elision: Elision, f: Formatter)
    ensures Render(fa, opts, f) == Render(fa, opts.(notation := notation, elision := elision), f)
  {
  }

  /** The count written is the number of bonds, not the degree: a Two bond renders as one. */
  lemma CountIsNumberOfBonds(fa: FattyAcid, opts: Options, f: Formatter, other: FattyAcid)
    requires other.carbons == fa.carbons && |other.unsaturated| == |fa.unsaturated|
    ensures Render(fa, opts, f.(alternate := false)) == Render(other, opts, f.(alternate := false))
  {
  }

  /** Examples of `Digits`, used by `RenderExamples`. */
  lemma DigitsOfSmall()
    ensures Digits(0) == "0" && Digits(1) == "1" && Digits(9) == "9" && Digits(18) == "18"
  {
    assert Digits(18) == Digits(1) + [DigitChar(8)];
  }

  /** The source's own test: `fatty_acid!(18;9)` under COMMON, and the matching ID strings. */
  lemma RenderExamples()
    ensures var fa := FattyAcid(18, [Unsaturated(Some(9), Some(Cis), Some(One))]);
            && MacroSpec(18, [[9]]) == Ok(fa)
            && Render(fa, COMMON, PLAIN) == "18:1"
            && Render(fa, COMMON, Formatter(false, 2, true)) == "18:01"
            && Render(fa, COMMON, Formatter(true, 0, false)) == "18:1Δ9"
            && Render(fa, COMMON, Formatter(true, 2, true)) == "18:01Δ09"
            && Render(fa, ID, PLAIN) == "c18u1"
            && Render(fa, ID, Formatter(false, 2, true)) == "c18u01"
            && Render(fa, ID, Formatter(true, 0, false)) == "c18u19"
            && Render(FattyAcid(18, []), COMMON, PLAIN) == "18:0"
            && Render(FattyAcid(18, [Unsaturated(Some(9), Some(Cis), Some(Two))]), COMMON, PLAIN) == "18:1"
  {
    MacroValidationExamples();
    DigitsOfSmall();
    assert Fill(1, '0') == "0";
  }

  // ---------------------------------------------------------------------
  // The locant helpers (`index::Display`, `isomerism::Display`)

  /** `isomerism::Display`: Trans always writes `t`; Cis writes `c` only when explicit. */
  function IsomerismMarker(iso: Isomerism, elision: Elision): (s: string) {
    match iso
    case Cis => if elision == Explicit then "c" else ""
    case Trans => "t"
  }

  /** `index::Display`: the marker before (Prefix) or after (Suffix) the padded index. */
  function LocantText(index: nat, iso: Isomerism, elision: Elision, notation: Notation, f: Formatter): string {
    match notation
    case Prefix => IsomerismMarker(iso, elision) + Pad(index, f)
    case Suffix => Pad(index, f) + IsomerismMarker(iso, elision)
  }

  predicate AllDigits(s: string) {
    forall k :: 0 <= k < |s| ==> IsDigit(s[k])
  }

  /** A non-empty run of decimal digits and the number it denotes. */
  function ParseNumber(s: string): Option<nat> {
    if s != [] && AllDigits(s) then Some(Value(s)) else None
  }

  /** Reads a locant back: an optional `c`/`t` at either end, digits in between; no marker means Cis. */
  function ParseLocant(s: string): Option<(Isomerism, nat)> {
    if s == [] then None
    else if s[0] == 'c' || s[0] == 't' then
      match ParseNumber(s[1..])
      case Some(n) => Some((if s[0] == 't' then Trans else Cis, n))
      case None => None
    else if s[|s| - 1] == 'c' || s[|s| - 1] == 't' then
      match ParseNumber(s[..|s| - 1])
      case Some(n) => Some((if s[|s| - 1] == 't' then Trans else Cis, n))
      case None => None
    else
      match ParseNumber(s)
      case Some(n) => Some((Cis, n))
      case None => None
  }

  /** An unpadded or zero-padded number reads back as itself. */
  lemma ParsePad(index: nat, f: Formatter)
    requires f.zero || f.width == 0
    ensures ParseNumber(Pad(index, f)) == Some(index)
    ensures IsDigit(Pad(index, f)[0]) && IsDigit(Pad(index, f)[|Pad(index, f)| - 1])
  {
    PadWidth(index, f);
    DigitsRoundTrip(index);
    if f.width <= |Digits(index)| {
      assert Pad(index, f) == Digits(index);
    }
  }

  /**
   * A locant written under any notation and elision, unpadded or
   * zero-padded, reads back as the same isomerism and index.
   */
  lemma LocantRoundTrip(index: nat, iso: Isomerism, elision: Elision, notation: Notation, f: Formatter)
    requires f.zero || f.width == 0
    ensures ParseLocant(LocantText(index, iso, elision, notation, f)) == Some((iso, index))
  {
    ParsePad(index, f);
    var p := Pad(index, f);
    var m := IsomerismMarker(iso, elision);
    var s := LocantText(index, iso, elision, notation, f);
    if m == "" {
      assert s == p;
    } else if notation == Prefix {
      assert s[1..] == p;
    } else {
      assert s[0] == p[0] && s[..|s| - 1] == p;
    }
  }

  /** Prefix and Suffix write the same characters, marker first or last; they agree when the marker is elided. */
  lemma NotationsRearrange(index: nat, iso: Isomerism, elision: Elision, f: Formatter)
    ensures LocantText(index, iso, elision, Prefix, f) == IsomerismMarker(iso, elision) + Pad(index, f)
    ensures LocantText(index, iso, elision, Suffix, f) == Pad(index, f) + IsomerismMarker(iso, elision)
    ensures iso == Cis && elision == Implicit ==>
            LocantText(index, iso, elision, Prefix, f) == LocantText(index, iso, elision, Suffix, f)
  {
  }

  /** Trans is never elided; under Explicit the marker determines the isomerism; the default elision is Implicit. */
  lemma MarkerFacts(a: Isomerism, b: Isomerism, elision: Elision)
    ensures IsomerismMarker(Trans, elision) == "t"
    ensures IsomerismMarker(Cis, Explicit) == "c" && IsomerismMarker(Cis, Implicit) == ""
    ensures IsomerismMarker(a, Explicit) == IsomerismMarker(b, Explicit) ==> a == b
    ensures IsomerismMarker(a, elision) == IsomerismMarker(b, elision) ==> a == b
    ensures DEFAULT_ELISION == Implicit
  {
  }
}
