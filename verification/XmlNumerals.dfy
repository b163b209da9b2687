/**
 What numeric references and named entities stand for: the parser reads the numerals that are written
 here, decimal and hexadecimal, as the code points they name.
 */
module XmlNumerals {
  import opened Chars
  import opened Wrappers
  import opened Strings
  import opened XmlLocal
  import opened XmlScan

  /** How a reference is written: in decimal digits, or after an x in hexadecimal ones of either case. */
  datatype Style = Decimal | Hex(mark: char, capitals: bool)

  predicate GoodMark(style: Style) {
    style.Hex? ==> style.mark == 'x' || style.mark == 'X'
  }

  function Base(style: Style): (b: nat)
    ensures b == 10 || b == 16
  {
    if style.Decimal? then 10 else 16
  }

  function DigitOf(d: nat, style: Style): char
    requires d < Base(style)
  {
    if style.Hex? && style.capitals then "0123456789ABCDEF"[d] else "0123456789abcdef"[d]
  }

  predicate Below(ds: seq<nat>, base: nat) {
    forall i :: 0 <= i < |ds| ==> ds[i] < base
  }

  /** The number that digits name, the first one most significant. */
  function Number(ds: seq<nat>, style: Style): nat {
    if ds == [] then 0
    else
      var front := Number(ds[..|ds| - 1], style);
      (if style.Decimal? then 10 * front else 16 * front) + ds[|ds| - 1]
  }

  function Spelled(ds: seq<nat>, style: Style): (s: string)
    requires Below(ds, Base(style))
    ensures |s| == |ds| && forall i :: 0 <= i < |ds| ==> s[i] == DigitOf(ds[i], style)
  {
    seq(|ds|, i requires 0 <= i < |ds| => DigitOf(ds[i], style))
  }

  /** The digits of a number, without leading zeros. */
  function Numeral(n: nat, style: Style): (ds: seq<nat>)
    ensures ds != [] && Below(ds, Base(style))
  {
    if style.Decimal? then (if n < 10 then [n] else Numeral(n / 10, style) + [n % 10])
    else if n < 16 then [n] else Numeral(n / 16, style) + [n % 16]
  }

  /** The numeral of a number names it, so everything said below of digits holds for every number. */
  lemma {:induction false} NumeralNames(n: nat, style: Style)
    ensures Number(Numeral(n, style), style) == n
    decreases n
  {
    var ds := Numeral(n, style);
    if n < Base(style) {
      assert ds[..0] == [];
    } else {
      var front := if style.Decimal? then n / 10 else n / 16;
      NumeralNames(front, style);
      assert ds[..|ds| - 1] == Numeral(front, style);
    }
  }

  /** What stands in front of the digits. */
  function Opening(style: Style): string {
    if style.Decimal? then "&#" else "&#" + [style.mark]
  }

  /** A reference as a document writes it. */
  function Reference(ds: seq<nat>, style: Style): string
    requires Below(ds, Base(style))
  {
    Opening(style) + Spelled(ds, style) + ";"
  }

  function Saturated(n: nat): nat {
    if n > 0xFFFF_FFFF_FFFF_FFFF then 0xFFFF_FFFF_FFFF_FFFF else n
  }

  /** The value of a reference: `strtoul` saturates at 64 bits, and 32 of them are kept. */
  function CodePoint(n: nat): nat {
    Saturated(n) % 0x1_0000_0000
  }

  // ---------- reading digits ----------

  /** `s` stands at `p`. */
  ghost predicate Lies(doc: string, p: nat, s: string) {
    p + |s| <= |doc| && forall i :: 0 <= i < |s| ==> doc[p + i] == s[i]
  }

  /** No blank, no sign, no mark of a base. */
  predicate IsPlain(c: char) {
    !IsCSpace(c) && c != '+' && c != '-' && c != 'x' && c != 'X'
  }

  lemma DigitReads(d: nat, style: Style)
    requires d < Base(style)
    ensures Digit(DigitOf(d, style), Base(style)) == Some(d)
    ensures IsPlain(DigitOf(d, style))
  {
  }

  /** Reading goes on behind digits with their number as the value so far. */
  lemma {:induction false} DigitsThrough(doc: string, p: nat, ds: seq<nat>, style: Style)
    requires Below(ds, Base(style)) && p + |ds| <= |doc|
    requires forall i :: 0 <= i < |ds| ==> doc[p + i] == DigitOf(ds[i], style)
    ensures Digits(doc, p, Base(style), 0) == Digits(doc, p + |ds|, Base(style), Number(ds, style))
    decreases |ds|
  {
    if ds != [] {
      var k := |ds| - 1;
      DigitsThrough(doc, p, ds[..k], style);
      DigitReads(ds[k], style);
      assert doc[p + k] == DigitOf(ds[k], style);
    }
  }

  /** `strtoul` reads digits up to a character that does not go on with them. */
  lemma StrToUlReads(doc: string, p: nat, ds: seq<nat>, style: Style, next: char)
    requires ds != [] && Below(ds, Base(style)) && p + |ds| <= |doc| && At(doc, p + |ds|) == next
    requires forall i :: 0 <= i < |ds| ==> doc[p + i] == DigitOf(ds[i], style)
    requires Digit(next, Base(style)).None? && next != 'x' && next != 'X'
    ensures StrToUl(doc, p, Base(style)) == (Saturated(Number(ds, style)), p + |ds|)
  {
    DigitReads(ds[0], style);
    assert doc[p + 0] == DigitOf(ds[0], style);
    if |ds| > 1 {
      DigitReads(ds[1], style);
      assert doc[p + 1] == DigitOf(ds[1], style);
    }
    DigitsThrough(doc, p, ds, style);
    NumberFrom(doc, p, p + |ds|, Base(style), Number(ds, style));
  }

  lemma NumberFrom(doc: string, p: nat, q: nat, base: nat, v: nat)
    requires p < q <= |doc| && IsPlain(doc[p]) && At(doc, p + 1) != 'x' && At(doc, p + 1) != 'X'
    requires Digits(doc, p, base, 0) == (v, q)
    ensures StrToUl(doc, p, base) == (Saturated(v), q)
  {
  }

  /** What `strtoul` passes in front of a number: tabs, line ends, feeds, returns and spaces. */
  ghost predicate Blanks(doc: string, p: nat, q: nat) {
    p <= q <= |doc| && forall k :: p <= k < q ==> 9 <= doc[k] as int <= 13 || doc[k] as int == 32
  }

  lemma {:induction false} BlanksPass(doc: string, p: nat, q: nat)
    requires Blanks(doc, p, q) && !IsCSpace(At(doc, q))
    ensures SkipCSpaces(doc, p) == q
    decreases q - p
  {
    if p < q {
      BlanksPass(doc, p + 1, q);
    }
  }

  /** A sign, if there is one, and the place behind it. */
  ghost predicate Signed(doc: string, q: nat, minus: bool, q1: nat) {
    if minus then At(doc, q) == '-' && q1 == q + 1
    else if At(doc, q) == '+' then q1 == q + 1
    else At(doc, q) != '-' && q1 == q
  }

  /** Where the digits begin: behind a second mark of the base, which only hexadecimal ones can have. */
  ghost predicate MarkedAt(doc: string, q1: nat, style: Style, d: nat) {
    d == q1 || (d == q1 + 2 && style.Hex? && At(doc, q1) == '0' && At(doc, q1 + 1) in {'x', 'X'})
  }

  /** Digits, and behind them something that does not go on with them. */
  ghost predicate DigitsAt(doc: string, d: nat, ds: seq<nat>, style: Style) {
    && ds != [] && Below(ds, Base(style)) && Lies(doc, d, Spelled(ds, style))
    && Digit(At(doc, d + |ds|), Base(style)).None? && At(doc, d + |ds|) !in {'x', 'X'}
  }

  /**
   Blanks, a sign and for hexadecimal digits a second mark of the base are read over; a minus sign counts from
   2^64 down.
   */
  lemma SignedReads(doc: string, p: nat, q: nat, minus: bool, q1: nat, d: nat, ds: seq<nat>, style: Style, n: nat)
    requires Blanks(doc, p, q) && Signed(doc, q, minus, q1) && MarkedAt(doc, q1, style, d)
    requires DigitsAt(doc, d, ds, style) && n == Number(ds, style)
    ensures StrToUl(doc, p, Base(style)) == (
      if n > 0xFFFF_FFFF_FFFF_FFFF then 0xFFFF_FFFF_FFFF_FFFF
      else if minus && n > 0 then 0x1_0000_0000_0000_0000 - n
      else n, d + |ds|)
  {
    FirstDigits(doc, d, ds, style);
    DigitsNumber(doc, d, ds, style);
    BlanksPass(doc, p, q);
    SignedFrom(doc, p, q, minus, q1, d > q1, d, d + |ds|, Base(style), n);
  }

  lemma DigitsNumber(doc: string, d: nat, ds: seq<nat>, style: Style)
    requires DigitsAt(doc, d, ds, style)
    ensures Digits(doc, d, Base(style), 0) == (Number(ds, style), d + |ds|) && d + |ds| <= |doc|
  {
    assert forall i :: 0 <= i < |ds| ==> doc[d + i] == Spelled(ds, style)[i] == DigitOf(ds[i], style);
    DigitsThrough(doc, d, ds, style);
  }

  lemma FirstDigits(doc: string, d: nat, ds: seq<nat>, style: Style)
    requires DigitsAt(doc, d, ds, style)
    ensures IsPlain(At(doc, d)) && Digit(At(doc, d), Base(style)).Some? && At(doc, d + 1) !in {'x', 'X'}
  {
    DigitReads(ds[0], style);
    assert doc[d + 0] == Spelled(ds, style)[0];
    if |ds| > 1 {
      DigitReads(ds[1], style);
      assert doc[d + 1] == Spelled(ds, style)[1];
    }
  }

  lemma SignedFrom(doc: string, p: nat, q: nat, minus: bool, q1: nat, marked: bool, d: nat, e: nat, base: nat, v: nat)
    requires p <= q <= |doc| && SkipCSpaces(doc, p) == q && Signed(doc, q, minus, q1) && d < e <= |doc|
    requires d == if marked then q1 + 2 else q1
    requires marked ==> base == 16 && At(doc, q1) == '0' && At(doc, q1 + 1) in {'x', 'X'}
    requires IsPlain(At(doc, d)) && Digit(At(doc, d), base).Some? && At(doc, d + 1) !in {'x', 'X'}
    requires Digits(doc, d, base, 0) == (v, e)
    ensures StrToUl(doc, p, base) == (
      if v > 0xFFFF_FFFF_FFFF_FFFF then 0xFFFF_FFFF_FFFF_FFFF
      else if minus && v > 0 then 0x1_0000_0000_0000_0000 - v
      else v, e)
  {
  }

  /** Where no digit follows them, nothing is read, not even the blanks and the sign. */
  lemma NothingReads(doc: string, p: nat, q: nat, minus: bool, q1: nat, base: nat)
    requires Blanks(doc, p, q) && !IsCSpace(At(doc, q)) && Signed(doc, q, minus, q1)
    requires base == 10 || base == 16
    requires Digit(At(doc, q1), base).None?
    ensures StrToUl(doc, p, base) == (0, p)
  {
    BlanksPass(doc, p, q);
  }

  // ---------- references ----------

  /** An opening at `p`, and behind it a number that ends at `e` in front of `next`. */
  lemma NumericFrom(doc: string, p: nat, style: Style, next: char, v: nat, e: nat)
    requires GoodMark(style) && Lies(doc, p, Opening(style))
    requires var q := p + |Opening(style)|; q < e <= |doc| && IsPlain(doc[q]) && StrToUl(doc, q, Base(style)) == (v, e)
    requires At(doc, e) == next
    ensures Decode(doc, p + 1) == if next == ';' then (v % 0x1_0000_0000, e + 1) else ('?' as nat, e)
  {
    var s := Opening(style);
    assert doc[p + 0] == s[0] == '&' && doc[p + 1] == s[1] == '#';
    assert style.Hex? ==> doc[p + 2] == s[2];
  }

  lemma DecodedFrom(f: (string, nat, nat) -> (nat, nat), g: (string, nat) -> (nat, nat), doc: string, p: nat,
      style: Style, next: char, v: nat, e: nat)
    requires IsStrToUl(f) && IsDecode(g) && GoodMark(style) && Lies(doc, p, Opening(style))
    requires var q := p + |Opening(style)|; q < e <= |doc| && IsPlain(doc[q]) && f(doc, q, Base(style)) == (v, e)
    requires At(doc, e) == next
    ensures g(doc, p + 1) == if next == ';' then (v % 0x1_0000_0000, e + 1) else ('?' as nat, e)
  {
    NumericFrom(doc, p, style, next, v, e);
  }

  lemma StrToUlGives(f: (string, nat, nat) -> (nat, nat), doc: string, p: nat, ds: seq<nat>, style: Style, next: char)
    requires IsStrToUl(f) && ds != [] && Below(ds, Base(style)) && p + |ds| <= |doc| && At(doc, p + |ds|) == next
    requires forall i :: 0 <= i < |ds| ==> doc[p + i] == DigitOf(ds[i], style)
    requires Digit(next, Base(style)).None? && next != 'x' && next != 'X'
    ensures f(doc, p, Base(style)) == (Saturated(Number(ds, style)), p + |ds|) && IsPlain(doc[p])
  {
    StrToUlReads(doc, p, ds, style, next);
    DigitReads(ds[0], style);
    assert doc[p + 0] == DigitOf(ds[0], style);
  }

  lemma DigitsLie(doc: string, p: nat, ds: seq<nat>, style: Style)
    requires Below(ds, Base(style)) && Lies(doc, p, Opening(style) + Spelled(ds, style))
    ensures var q := p + |Opening(style)|;
            Lies(doc, p, Opening(style)) && forall i :: 0 <= i < |ds| ==> doc[q + i] == DigitOf(ds[i], style)
  {
    var s := Opening(style) + Spelled(ds, style);
    var q := p + |Opening(style)|;
    forall i | 0 <= i < |ds| ensures doc[q + i] == DigitOf(ds[i], style) {
      assert doc[p + (|Opening(style)| + i)] == s[|Opening(style)| + i];
    }
    assert forall i :: 0 <= i < |Opening(style)| ==> s[i] == Opening(style)[i];
  }

  /** Digits as a reference, ended by the semicolon or not. */
  lemma DigitsDecode(f: (string, nat, nat) -> (nat, nat), g: (string, nat) -> (nat, nat), doc: string, p: nat,
      ds: seq<nat>, style: Style, next: char, n: nat)
    requires IsStrToUl(f) && IsDecode(g) && ds != [] && Below(ds, Base(style)) && GoodMark(style)
    requires n == Number(ds, style)
    requires Lies(doc, p, Opening(style) + Spelled(ds, style)) && At(doc, p + |Opening(style)| + |ds|) == next
    requires Digit(next, Base(style)).None? && next != 'x' && next != 'X'
    ensures var e := p + |Opening(style)| + |ds|;
            g(doc, p + 1) == if next == ';' then (CodePoint(n), e + 1) else ('?' as nat, e)
  {
    var q := p + |Opening(style)|;
    DigitsLie(doc, p, ds, style);
    StrToUlGives(f, doc, q, ds, style, next);
    DecodedFrom(f, g, doc, p, style, next, Saturated(n), q + |ds|);
  }

  lemma ReferenceDecode(f: (string, nat, nat) -> (nat, nat), g: (string, nat) -> (nat, nat), doc: string, p: nat,
      ds: seq<nat>, style: Style, n: nat)
    requires IsStrToUl(f) && IsDecode(g) && ds != [] && Below(ds, Base(style)) && GoodMark(style)
    requires n == Number(ds, style)
    requires Lies(doc, p, Reference(ds, style))
    ensures doc[p] == '&' && g(doc, p + 1) == (CodePoint(n), p + |Reference(ds, style)|)
  {
    var head, s := Opening(style) + Spelled(ds, style), Reference(ds, style);
    assert s == head + ";";
    forall i | 0 <= i < |head| ensures doc[p + i] == head[i] {
      assert s[i] == head[i];
    }
    assert doc[p + |head|] == s[|head|] == ';';
    assert doc[p + 0] == s[0] == '&';
    DigitsDecode(f, g, doc, p, ds, style, ';', n);
  }

  /** What is decoded at an ampersand comes first, then the rest. */
  lemma DecodedFirst(g: (string, nat) -> (nat, nat), h: (string, nat, nat) -> string, doc: string, i: nat, j: nat,
      u: nat, e: nat)
    requires IsDecode(g) && IsUnescape(h) && i < |doc| && i < j <= |doc|
    requires doc[i] == '&' && g(doc, i + 1) == (u, e)
    ensures e <= |doc| && h(doc, i, j) == Utf(u) + h(doc, e, j)
  {
    var f := (d: string, k: nat) => if k < |d| then Unit(d, k) else ("", 0);
    assert IsUnit(f);
    UnitIs(g, f, doc, i);
    UnescapeIs(f, h, doc, i, j);
  }

  /** The functions of the scanner as values, so that a proof sees no more of them. */
  lemma Values() returns (f: (string, nat, nat) -> (nat, nat), g: (string, nat) -> (nat, nat),
      h: (string, nat, nat) -> string)
    ensures IsStrToUl(f) && IsDecode(g) && IsUnescape(h)
    ensures forall d: string, i: nat, j: nat {:trigger h(d, i, j)} :: i <= |d| && j <= |d| ==>
      h(d, i, j) == Unescape(d, i, j)
  {
    f := (d: string, i: nat, base: nat) => if i <= |d| then StrToUl(d, i, base) else (0, 0);
    g := (d: string, i: nat) => if i <= |d| then Decode(d, i) else (0, 0);
    h := (d: string, i: nat, j: nat) => if i <= |d| && j <= |d| then Unescape(d, i, j) else "";
  }

  lemma ReferenceWith(f: (string, nat, nat) -> (nat, nat), g: (string, nat) -> (nat, nat),
      h: (string, nat, nat) -> string, doc: string, p: nat, ds: seq<nat>, style: Style, s: string, n: nat, j: nat)
    requires IsStrToUl(f) && IsDecode(g) && IsUnescape(h)
    requires ds != [] && Below(ds, Base(style)) && GoodMark(style) && s == Reference(ds, style) && n == Number(ds, style)
    requires Lies(doc, p, s) && p + |s| <= j <= |doc|
    ensures h(doc, p, j) == Utf(CodePoint(n)) + h(doc, p + |s|, j)
  {
    ReferenceDecode(f, g, doc, p, ds, style, n);
    DecodedFirst(g, h, doc, p, j, CodePoint(n), p + |s|);
  }

  /** What any digits stand for: their number saturates at 64 bits, and 32 of them are kept. */
  lemma LargeReferenceMeans(doc: string, p: nat, ds: seq<nat>, style: Style, s: string, n: nat, j: nat)
    requires ds != [] && Below(ds, Base(style)) && GoodMark(style)
    requires s == Reference(ds, style) && n == Number(ds, style)
    requires Lies(doc, p, s) && p + |s| <= j <= |doc|
    ensures Unescape(doc, p, j) == Utf(CodePoint(n)) + Unescape(doc, p + |s|, j)
  {
    var f, g, h := Values();
    ReferenceWith(f, g, h, doc, p, ds, style, s, n, j);
    assert h(doc, p, j) == Unescape(doc, p, j);
    assert h(doc, p + |s|, j) == Unescape(doc, p + |s|, j);
  }

  lemma SmallCodePoint(n: nat)
    requires n <= 0xFFFF_FFFF
    ensures CodePoint(n) == n
  {
  }

  /**
   A reference to any code point of 32 bits, decimal or hexadecimal with digits of either case, stands for
   that code point, behind and in front of anything.
   */
  lemma ReferenceMeans(doc: string, p: nat, n: nat, style: Style, s: string, j: nat)
    requires n <= 0xFFFF_FFFF && GoodMark(style) && s == Reference(Numeral(n, style), style)
    requires Lies(doc, p, s) && p + |s| <= j <= |doc|
    ensures Unescape(doc, p, j) == Utf(n) + Unescape(doc, p + |s|, j)
  {
    NumeralNames(n, style);
    SmallCodePoint(n);
    LargeReferenceMeans(doc, p, Numeral(n, style), style, s, n, j);
  }

  /** Without the semicolon it stands for a question mark, and reading goes on behind the digits. */
  lemma UnfinishedReference(doc: string, p: nat, ds: seq<nat>, style: Style)
    requires ds != [] && Below(ds, Base(style)) && GoodMark(style) && Lies(doc, p, Opening(style) + Spelled(ds, style))
    requires var c := At(doc, p + |Opening(style)| + |ds|);
      c != ';' && c != 'x' && c != 'X' && Digit(c, Base(style)).None?
    ensures Decode(doc, p + 1) == ('?' as nat, p + |Opening(style)| + |ds|)
  {
    var f, g, h := Values();
    DigitsDecode(f, g, doc, p, ds, style, At(doc, p + |Opening(style)| + |ds|), Number(ds, style));
  }

  // ---------- named entities ----------

  /** The five names and what they stand for. */
  function Names(): seq<(string, char)> {
    [("amp;", '&'), ("quot;", '"'), ("lt;", '<'), ("gt;", '>'), ("apos;", '\'')]
  }

  /** A named entity stands for its character, wherever it stands. */
  lemma NameMeans(doc: string, p: nat, k: nat, j: nat)
    requires k < |Names()| && Lies(doc, p, "&" + Names()[k].0) && p + 1 + |Names()[k].0| <= j <= |doc|
    ensures Unescape(doc, p, j) == [Names()[k].1] + Unescape(doc, p + 1 + |Names()[k].0|, j)
  {
    NamedDecode(doc, p, k);
    EntityMeans(doc, p, Names()[k].1, p + 1 + |Names()[k].0|, j);
  }

  lemma EntityMeans(doc: string, p: nat, c: char, e: nat, j: nat)
    requires p < e <= j <= |doc| && doc[p] == '&' && Decode(doc, p + 1) == (c as nat, e) && c as nat < 0x80
    ensures Unescape(doc, p, j) == [c] + Unescape(doc, e, j)
  {
    var f, g, h := Values();
    DecodedFirst(g, h, doc, p, j, c as nat, e);
    assert h(doc, p, j) == Unescape(doc, p, j);
  }

  lemma NamedDecode(doc: string, p: nat, k: nat)
    requires k < |Names()| && Lies(doc, p, "&" + Names()[k].0)
    ensures doc[p] == '&' && Decode(doc, p + 1) == (Names()[k].1 as nat, p + 1 + |Names()[k].0|)
  {
    var s := "&" + Names()[k].0;
    assert doc[p + 0] == s[0] && doc[p + 1] == s[1] && doc[p + 2] == s[2] && doc[p + 3] == s[3];
    assert |s| > 4 ==> doc[p + 4] == s[4];
    assert |s| > 5 ==> doc[p + 5] == s[5];
  }

  /** An ampersand in front of none of them, and of no hash, stands for itself. */
  lemma BareAmpersand(doc: string, p: nat)
    requires p < |doc| && doc[p] == '&' && At(doc, p + 1) != '#'
    requires forall k :: 0 <= k < |Names()| ==> !Lies(doc, p + 1, Names()[k].0)
    ensures Decode(doc, p + 1) == ('&' as nat, p + 1)
  {
    forall k | 0 <= k < |Names()| ensures exists i :: 0 <= i < |Names()[k].0| && At(doc, p + 1 + i) != Names()[k].0[i] {
      Missing(doc, p + 1, Names()[k].0);
    }
    assert Names()[0].0 == "amp;" && Names()[1].0 == "quot;" && Names()[2].0 == "lt;" && Names()[3].0 == "gt;";
    assert Names()[4].0 == "apos;";
  }

  lemma Missing(doc: string, p: nat, s: string)
    requires p <= |doc| && !Lies(doc, p, s) && forall i :: 0 <= i < |s| ==> s[i] != '\0'
    ensures exists i :: 0 <= i < |s| && At(doc, p + i) != s[i]
  {
    if p + |s| > |doc| {
      var i := |doc| - p;
      assert At(doc, p + i) == '\0' != s[i];
    } else {
      var i :| 0 <= i < |s| && doc[p + i] != s[i];
      assert At(doc, p + i) != s[i];
    }
  }
}
