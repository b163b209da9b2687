/** What entities stand for depends on nothing behind the character at which a text or value ends. */
module XmlLocal {
  import opened Chars
  import opened Wrappers
  import opened Strings
  import opened XmlScan

  /** `x` stands at `p`, and a character follows at which a text or a value ends. */
  ghost predicate StandsAlone(doc: string, p: nat, x: string) {
    Stands(doc, p, x) && Ends(At(doc, p + |x|))
  }

  lemma SameAt(doc: string, p: nat, x: string, i: nat)
    requires StandsAlone(doc, p, x) && i <= |x|
    ensures p + |x| <= |doc| && (if i < |x| then At(doc, p + i) == At(x, i)
      else Ends(At(doc, p + i)) && At(x, i) == '\0')
  {
    if i < |x| {
      assert doc[p..p + |x|][i] == x[i];
    }
  }

  /** What a number is made of is none of these characters. */
  lemma EndsIsStrange(c: char)
    requires Ends(c)
    ensures !IsCSpace(c) && Digit(c, 10).None? && Digit(c, 16).None?
  {
  }

  lemma {:induction false} DigitsLocal(doc: string, p: nat, x: string, i: nat, base: nat, value: nat)
    requires StandsAlone(doc, p, x) && i <= |x| && (base == 10 || base == 16)
    ensures p + |x| <= |doc|
    ensures Digits(doc, p + i, base, value) == (Digits(x, i, base, value).0, p + Digits(x, i, base, value).1)
    decreases |x| - i
  {
    SameAt(doc, p, x, i);
    if i < |x| {
      if Digit(x[i], base).Some? {
        DigitsLocal(doc, p, x, i + 1, base, value * base + Digit(x[i], base).value);
      }
    } else {
      EndsIsStrange(At(doc, p + i));
    }
  }

  lemma {:induction false} SpacesLocal(doc: string, p: nat, x: string, i: nat)
    requires StandsAlone(doc, p, x) && i <= |x|
    ensures p + |x| <= |doc| && SkipCSpaces(doc, p + i) == p + SkipCSpaces(x, i)
    decreases |x| - i
  {
    SameAt(doc, p, x, i);
    if i < |x| {
      if IsCSpace(x[i]) {
        SpacesLocal(doc, p, x, i + 1);
      }
    } else {
      EndsIsStrange(At(doc, p + i));
    }
  }

  /** A test for any other character. */
  lemma TestLocal(doc: string, p: nat, x: string, i: nat, c: char)
    requires StandsAlone(doc, p, x) && i <= |x|
    requires !Ends(c)
    ensures At(doc, p + i) == c <==> At(x, i) == c
    ensures At(x, i) == c ==> i < |x|
  {
    SameAt(doc, p, x, i);
  }

  /** Where the digits begin, behind a sign. */
  function SignEnd(doc: string, q: nat): nat {
    if At(doc, q) == '-' || At(doc, q) == '+' then q + 1 else q
  }

  function PrefixEnd(doc: string, q: nat, base: nat): nat {
    if base == 16 && At(doc, q) == '0' && (At(doc, q + 1) == 'x' || At(doc, q + 1) == 'X')
        && Digit(At(doc, q + 2), 16).Some? then q + 2 else q
  }

  lemma SignLocal(doc: string, p: nat, x: string, q: nat)
    requires StandsAlone(doc, p, x) && q <= |x|
    ensures SignEnd(doc, p + q) == p + SignEnd(x, q) && SignEnd(x, q) <= |x|
    ensures At(doc, p + q) == '-' <==> At(x, q) == '-'
  {
    TestLocal(doc, p, x, q, '-');
    TestLocal(doc, p, x, q, '+');
  }

  lemma PrefixLocal(doc: string, p: nat, x: string, q: nat, base: nat)
    requires StandsAlone(doc, p, x) && q <= |x|
    ensures PrefixEnd(doc, p + q, base) == p + PrefixEnd(x, q, base) && PrefixEnd(x, q, base) <= |x|
  {
    TestLocal(doc, p, x, q, '0');
    if At(x, q) == '0' {
      TestLocal(doc, p, x, q + 1, 'x');
      TestLocal(doc, p, x, q + 1, 'X');
      if At(x, q + 1) == 'x' || At(x, q + 1) == 'X' {
        SameAt(doc, p, x, q + 2);
        if q + 2 == |x| {
          EndsIsStrange(At(doc, p + q + 2));
        }
      }
    }
  }

  /** Where the digits of a number begin. */
  function DigitsStart(doc: string, i: nat, base: nat): nat
    requires i <= |doc|
  {
    PrefixEnd(doc, SignEnd(doc, SkipCSpaces(doc, i)), base)
  }

  predicate IsNegative(doc: string, i: nat)
    requires i <= |doc|
  {
    At(doc, SkipCSpaces(doc, i)) == '-'
  }

  lemma StartLocal(doc: string, p: nat, x: string, i: nat, base: nat)
    requires StandsAlone(doc, p, x) && i <= |x|
    ensures p + |x| <= |doc| && DigitsStart(x, i, base) <= |x|
    ensures DigitsStart(doc, p + i, base) == p + DigitsStart(x, i, base)
    ensures IsNegative(doc, p + i) <==> IsNegative(x, i)
  {
    var s := SkipCSpaces(x, i);
    SpacesLocal(doc, p, x, i);
    SignLocal(doc, p, x, s);
    PrefixLocal(doc, p, x, SignEnd(x, s), base);
  }

  // The functions of the scanner are passed as values below, so that a proof sees no more of one
  // than it names.

  ghost predicate IsStrToUl(f: (string, nat, nat) -> (nat, nat)) {
    forall d: string, i: nat, base: nat {:trigger StrToUl(d, i, base)} :: i <= |d| ==>
        f(d, i, base) == StrToUl(d, i, base)
  }

  ghost predicate IsDecode(f: (string, nat) -> (nat, nat)) {
    forall d: string, i: nat {:trigger Decode(d, i)} :: i <= |d| ==> f(d, i) == Decode(d, i)
  }

  ghost predicate IsUnit(f: (string, nat) -> (string, nat)) {
    forall d: string, i: nat {:trigger Unit(d, i)} :: i < |d| ==> f(d, i) == Unit(d, i)
  }

  ghost predicate IsUnescape(f: (string, nat, nat) -> string) {
    forall d: string, i: nat, j: nat {:trigger Unescape(d, i, j)} :: i <= |d| && j <= |d| ==>
        f(d, i, j) == Unescape(d, i, j)
  }

  ghost predicate IsDigits(f: (string, nat, nat) -> (nat, nat)) {
    forall d: string, i: nat, base: nat {:trigger Digits(d, i, base, 0)} :: i <= |d| ==>
        f(d, i, base) == Digits(d, i, base, 0)
  }

  /** What `strtoul` returns for digits of the value v from q up to e, where the text began at i. */
  function Converted(negative: bool, v: nat, e: nat, q: nat, i: nat): (nat, nat) {
    if e == q then (0, i)
    else (if v > ULONG_MAX then ULONG_MAX else if negative then (ULONG_MAX + 1 - v) % (ULONG_MAX + 1) else v, e)
  }

  lemma ConvertedShifts(negative: bool, v: nat, e: nat, q: nat, i: nat, p: nat)
    ensures Converted(negative, v, p + e, p + q, p + i)
      == (Converted(negative, v, e, q, i).0, p + Converted(negative, v, e, q, i).1)
  {
  }

  lemma StrToUlIs(g: (string, nat, nat) -> (nat, nat), f: (string, nat, nat) -> (nat, nat), doc: string, i: nat,
      base: nat, q: nat)
    requires IsStrToUl(g) && IsDigits(f) && i <= |doc| && q == DigitsStart(doc, i, base)
    ensures q <= |doc| && g(doc, i, base) ==
      Converted(IsNegative(doc, i), f(doc, q, base).0, f(doc, q, base).1, q, i)
  {
    assert g(doc, i, base) == StrToUl(doc, i, base);
  }

  lemma StrToUlWith(g: (string, nat, nat) -> (nat, nat), f: (string, nat, nat) -> (nat, nat),
      doc: string, p: nat, x: string, i: nat, base: nat)
    requires IsStrToUl(g) && IsDigits(f) && StandsAlone(doc, p, x) && i <= |x| && (base == 10 || base == 16)
    ensures p + |x| <= |doc| && g(doc, p + i, base) == (g(x, i, base).0, p + g(x, i, base).1)
  {
    var q := DigitsStart(x, i, base);
    StartLocal(doc, p, x, i, base);
    DigitsLocal(doc, p, x, q, base, 0);
    StrToUlIs(g, f, doc, p + i, base, p + q);
    StrToUlIs(g, f, x, i, base, q);
    ConvertedShifts(IsNegative(x, i), f(x, q, base).0, f(x, q, base).1, q, i, p);
  }

  lemma NumberLocal(f: (string, nat, nat) -> (nat, nat), doc: string, p: nat, x: string, i: nat, base: nat)
    requires IsStrToUl(f) && StandsAlone(doc, p, x) && i <= |x| && (base == 10 || base == 16)
    ensures p + |x| <= |doc| && f(x, i, base).1 <= |x|
    ensures f(doc, p + i, base) == (f(x, i, base).0, p + f(x, i, base).1)
  {
    var digits := (d: string, k: nat, b: nat) => if k <= |d| then Digits(d, k, b, 0) else (0, 0);
    assert IsDigits(digits);
    StrToUlWith(f, digits, doc, p, x, i, base);
    assert f(x, i, base) == StrToUl(x, i, base);
  }

  /** What becomes of a number that ends at `e`. */
  function Finish(doc: string, v: nat, e: nat): (nat, nat) {
    if At(doc, e) == ';' then (v % 0x1_0000_0000, e + 1) else ('?' as nat, e)
  }

  lemma FinishLocal(doc: string, p: nat, x: string, v: nat, e: nat)
    requires StandsAlone(doc, p, x) && e <= |x|
    ensures Finish(doc, v, p + e) == (Finish(x, v, e).0, p + Finish(x, v, e).1)
  {
    TestLocal(doc, p, x, e, ';');
  }

  predicate IsHex(doc: string, i: nat) {
    At(doc, i) == 'x' || At(doc, i) == 'X'
  }

  ghost predicate IsNumeric(n: (string, nat) -> (nat, nat)) {
    forall d: string, i: nat {:trigger Numeric(d, i)} :: i < |d| ==> n(d, i) == Numeric(d, i)
  }

  lemma NumericIs(n: (string, nat) -> (nat, nat), f: (string, nat, nat) -> (nat, nat), doc: string, i: nat,
      from: nat, base: nat)
    requires IsNumeric(n) && IsStrToUl(f) && i < |doc| && from == (if IsHex(doc, i + 1) then i + 2 else i + 1)
    requires base == (if IsHex(doc, i + 1) then 16 else 10)
    ensures n(doc, i) == Finish(doc, f(doc, from, base).0, f(doc, from, base).1)
  {
    assert n(doc, i) == Numeric(doc, i);
  }

  lemma NumericWith(n: (string, nat) -> (nat, nat), f: (string, nat, nat) -> (nat, nat), doc: string, p: nat,
      x: string, i: nat)
    requires IsNumeric(n) && IsStrToUl(f) && StandsAlone(doc, p, x) && i < |x|
    ensures p + |x| <= |doc| && n(doc, p + i) == (n(x, i).0, p + n(x, i).1)
  {
    TestLocal(doc, p, x, i + 1, 'x');
    TestLocal(doc, p, x, i + 1, 'X');
    var hex := IsHex(x, i + 1);
    var from, base := if hex then i + 2 else i + 1, if hex then 16 else 10;
    NumberLocal(f, doc, p, x, from, base);
    NumericIs(n, f, doc, p + i, p + from, base);
    NumericIs(n, f, x, i, from, base);
    FinishLocal(doc, p, x, f(x, from, base).0, f(x, from, base).1);
  }

  lemma NumericLocal(doc: string, p: nat, x: string, i: nat)
    requires StandsAlone(doc, p, x) && i < |x|
    ensures p + |x| <= |doc| && Numeric(doc, p + i) == (Numeric(x, i).0, p + Numeric(x, i).1)
  {
    var f := (d: string, k: nat, b: nat) => if k <= |d| then StrToUl(d, k, b) else (0, 0);
    var n := (d: string, k: nat) => if k < |d| then Numeric(d, k) else (0, 0);
    assert IsStrToUl(f) && IsNumeric(n);
    NumericWith(n, f, doc, p, x, i);
  }

  predicate Three(doc: string, i: nat, a: char, b: char, c: char) {
    At(doc, i) == a && At(doc, i + 1) == b && At(doc, i + 2) == c
  }

  lemma ThreeLocal(doc: string, p: nat, x: string, i: nat, a: char, b: char, c: char)
    requires StandsAlone(doc, p, x) && i <= |x| && !Ends(a) && !Ends(b) && !Ends(c)
    ensures Three(doc, p + i, a, b, c) <==> Three(x, i, a, b, c)
    ensures Three(x, i, a, b, c) ==> i + 3 <= |x|
  {
    MoreLocal(doc, p, x, i, a, b);
    if At(x, i) == a && At(x, i + 1) == b {
      TestLocal(doc, p, x, i + 2, c);
    }
  }

  /** Two tests, one after the other. */
  lemma MoreLocal(doc: string, p: nat, x: string, i: nat, a: char, b: char)
    requires StandsAlone(doc, p, x) && i <= |x| && !Ends(a) && !Ends(b)
    ensures At(doc, p + i) == a <==> At(x, i) == a
    ensures At(doc, p + i) == a && At(doc, p + i + 1) == b <==> At(x, i) == a && At(x, i + 1) == b
    ensures At(x, i) == a && At(x, i + 1) == b ==> i + 2 <= |x|
  {
    TestLocal(doc, p, x, i, a);
    if At(x, i) == a {
      TestLocal(doc, p, x, i + 1, b);
    }
  }

  lemma NamedLocal(doc: string, p: nat, x: string, i: nat)
    requires StandsAlone(doc, p, x) && i <= |x|
    ensures p + |x| <= |doc| && Named(doc, p + i) == (Named(x, i).0, p + Named(x, i).1)
  {
    SameAt(doc, p, x, i);
    ThreeLocal(doc, p, x, i, 'a', 'm', 'p');
    ThreeLocal(doc, p, x, i, 'q', 'u', 'o');
    ThreeLocal(doc, p, x, i, 'l', 't', ';');
    ThreeLocal(doc, p, x, i, 'g', 't', ';');
    ThreeLocal(doc, p, x, i, 'a', 'p', 'o');
    if Three(x, i, 'a', 'm', 'p') {
      MoreLocal(doc, p, x, i + 3, ';', ';');
    } else if Three(x, i, 'q', 'u', 'o') {
      MoreLocal(doc, p, x, i + 3, 't', ';');
    } else if Three(x, i, 'a', 'p', 'o') {
      MoreLocal(doc, p, x, i + 3, 's', ';');
    }
  }

  lemma DecodeLocal(doc: string, p: nat, x: string, i: nat)
    requires StandsAlone(doc, p, x) && i <= |x|
    ensures p + |x| <= |doc| && Decode(doc, p + i) == (Decode(x, i).0, p + Decode(x, i).1)
  {
    TestLocal(doc, p, x, i, '#');
    if At(x, i) == '#' {
      NumericLocal(doc, p, x, i);
    } else {
      NamedLocal(doc, p, x, i);
    }
  }

  lemma UnitLocal(g: (string, nat) -> (nat, nat), f: (string, nat) -> (string, nat), doc: string, p: nat,
      x: string, i: nat)
    requires IsDecode(g) && IsUnit(f) && StandsAlone(doc, p, x) && i < |x|
    ensures p + |x| <= |doc| && i < f(x, i).1 <= |x| && f(doc, p + i) == (f(x, i).0, p + f(x, i).1)
  {
    SameAt(doc, p, x, i);
    if x[i] == '&' {
      DecodedLocal(g, doc, p, x, i + 1);
    }
    UnitIs(g, f, doc, p + i);
    UnitIs(g, f, x, i);
  }

  lemma UnitIs(g: (string, nat) -> (nat, nat), f: (string, nat) -> (string, nat), doc: string, i: nat)
    requires IsDecode(g) && IsUnit(f) && i < |doc|
    ensures f(doc, i) == if doc[i] == '&' then (Utf(g(doc, i + 1).0), g(doc, i + 1).1) else ([doc[i]], i + 1)
    ensures i < f(doc, i).1 <= |doc|
  {
    assert f(doc, i) == Unit(doc, i);
  }

  lemma DecodedLocal(g: (string, nat) -> (nat, nat), doc: string, p: nat, x: string, i: nat)
    requires IsDecode(g) && StandsAlone(doc, p, x) && i <= |x|
    ensures p + |x| <= |doc| && g(doc, p + i) == (g(x, i).0, p + g(x, i).1)
  {
    DecodeLocal(doc, p, x, i);
  }

  lemma UnescapeUnit(doc: string, p: nat, j: nat, x: string, q: nat)
    requires p < j <= |doc| && p < q <= |doc| && Unit(doc, p) == (x, q)
    ensures Unescape(doc, p, j) == x + Unescape(doc, q, j)
  {
  }

  lemma UnescapeIs(f: (string, nat) -> (string, nat), h: (string, nat, nat) -> string, doc: string, i: nat, j: nat)
    requires IsUnit(f) && IsUnescape(h) && i <= |doc| && j <= |doc|
    ensures h(doc, i, j) == if i >= j then [] else f(doc, i).0 + h(doc, f(doc, i).1, j)
  {
    if i < j {
      UnescapeUnit(doc, i, j, Unit(doc, i).0, Unit(doc, i).1);
    } else {
      assert Unescape(doc, i, j) == [];
    }
  }

  lemma {:induction false} UnescapeWith(g: (string, nat) -> (nat, nat), f: (string, nat) -> (string, nat),
      h: (string, nat, nat) -> string,
      doc: string, p: nat, x: string, i: nat)
    requires IsDecode(g) && IsUnit(f) && IsUnescape(h) && StandsAlone(doc, p, x) && i <= |x|
    ensures h(doc, p + i, p + |x|) == h(x, i, |x|)
    decreases |x| - i
  {
    SameAt(doc, p, x, i);
    UnescapeIs(f, h, doc, p + i, p + |x|);
    UnescapeIs(f, h, x, i, |x|);
    if i < |x| {
      UnitLocal(g, f, doc, p, x, i);
      UnescapeWith(g, f, h, doc, p, x, f(x, i).1);
    }
  }

  lemma ReadLocal(h: (string, nat, nat) -> string, doc: string, p: nat, x: string)
    requires IsUnescape(h) && StandsAlone(doc, p, x)
    ensures p + |x| <= |doc| && h(doc, p, p + |x|) == h(x, 0, |x|)
  {
    var g := (d: string, i: nat) => if i <= |d| then Decode(d, i) else (0, 0);
    var f := (d: string, i: nat) => if i < |d| then Unit(d, i) else ("", 0);
    SameAt(doc, p, x, 0);
    assert IsDecode(g) && IsUnit(f);
    UnescapeWith(g, f, h, doc, p, x, 0);
    assert p + 0 == p;
  }

  /** A text or value means in a document what it means alone. */
  lemma UnescapeLocal(doc: string, p: nat, x: string)
    requires StandsAlone(doc, p, x)
    ensures p + |x| <= |doc| && Unescape(doc, p, p + |x|) == Unescape(x, 0, |x|)
  {
    var h := (d: string, i: nat, j: nat) => if i <= |d| && j <= |d| then Unescape(d, i, j) else "";
    assert IsUnescape(h);
    ReadLocal(h, doc, p, x);
    assert h(doc, p, p + |x|) == Unescape(doc, p, p + |x|);
    assert h(x, 0, |x|) == Unescape(x, 0, |x|);
  }
}
