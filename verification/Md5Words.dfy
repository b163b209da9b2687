/** The bit functions of MD5: those of RFC 1321, section 3.4, and the forms the code computes. */
module Md5Words {
  function BitsF(x: bv32, y: bv32, z: bv32): bv32 { (x & y) | (!x & z) }
  function BitsG(x: bv32, y: bv32, z: bv32): bv32 { (x & z) | (y & !z) }
  function BitsH(x: bv32, y: bv32, z: bv32): bv32 { x ^ y ^ z }
  function BitsI(x: bv32, y: bv32, z: bv32): bv32 { y ^ (x | !z) }
  function BitsFF(b: bv32, c: bv32, d: bv32): bv32 { d ^ (b & (c ^ d)) }
  function BitsFG(b: bv32, c: bv32, d: bv32): bv32 { BitsFF(d, b, c) }
  function BitsFH(b: bv32, c: bv32, d: bv32): bv32 { b ^ c ^ d }
  function BitsFI(b: bv32, c: bv32, d: bv32): bv32 { c ^ (b | !d) }
  function BitsSum(a: bv32, f: bv32, x: bv32, t: bv32): bv32 { a + f + x + t }
  function BitsAdd(x: bv32, y: bv32): bv32 { x + y }

  lemma Select(b: bv32, c: bv32, d: bv32)
    ensures d ^ (b & (c ^ d)) == (b & c) | (!b & d)
  {
  }

  lemma FFBits(b: bv32, c: bv32, d: bv32)
    ensures BitsFF(b, c, d) == BitsF(b, c, d)
  {
    Select(b, c, d);
  }

  lemma FGBits(b: bv32, c: bv32, d: bv32)
    ensures BitsFG(b, c, d) == BitsG(b, c, d)
  {
    FFBits(d, b, c);
    assert BitsF(d, b, c) == BitsG(b, c, d);
  }

  lemma SumIs(a: bv32, f: bv32, x: bv32, t: bv32)
    ensures a + (f + x + t) == BitsSum(a, f, x, t)
  {
  }

  lemma AddIs(a: bv32, b: bv32)
    ensures a + b == BitsAdd(b, a)
  {
  }

  /** A 32-bit word. The constructor keeps bit-level reasoning inside this module. */
  datatype Word = Word(bits: bv32)

  function F(x: Word, y: Word, z: Word): Word { Word(BitsF(x.bits, y.bits, z.bits)) }
  function G(x: Word, y: Word, z: Word): Word { Word(BitsG(x.bits, y.bits, z.bits)) }
  function H(x: Word, y: Word, z: Word): Word { Word(BitsH(x.bits, y.bits, z.bits)) }
  function I(x: Word, y: Word, z: Word): Word { Word(BitsI(x.bits, y.bits, z.bits)) }

  function FF(b: Word, c: Word, d: Word): Word { Word(BitsFF(b.bits, c.bits, d.bits)) }
  function FG(b: Word, c: Word, d: Word): Word { Word(BitsFG(b.bits, c.bits, d.bits)) }
  function FH(b: Word, c: Word, d: Word): Word { Word(BitsFH(b.bits, c.bits, d.bits)) }
  function FI(b: Word, c: Word, d: Word): Word { Word(BitsFI(b.bits, c.bits, d.bits)) }

  /** The optimised form is the function of the RFC on all words. */
  lemma FFIsF(b: Word, c: Word, d: Word)
    ensures FF(b, c, d) == F(b, c, d)
  {
    FFBits(b.bits, c.bits, d.bits);
  }

  lemma FGIsG(b: Word, c: Word, d: Word)
    ensures FG(b, c, d) == G(b, c, d)
  {
    FGBits(b.bits, c.bits, d.bits);
  }

  lemma FHBits(b: bv32, c: bv32, d: bv32)
    ensures BitsFH(b, c, d) == BitsH(b, c, d)
  {
  }

  lemma FIBits(b: bv32, c: bv32, d: bv32)
    ensures BitsFI(b, c, d) == BitsI(b, c, d)
  {
  }

  lemma FHIsH(b: Word, c: Word, d: Word)
    ensures FH(b, c, d) == H(b, c, d)
  {
    FHBits(b.bits, c.bits, d.bits);
  }

  lemma FIIsI(b: Word, c: Word, d: Word)
    ensures FI(b, c, d) == I(b, c, d)
  {
    FIBits(b.bits, c.bits, d.bits);
  }

  type Constant = t: nat | t < 0x1_0000_0000

  function ToBits(t: Constant): bv32 { t as bv32 }

  function Sum(a: Word, f: Word, x: Word, t: Constant): Word { Word(BitsSum(a.bits, f.bits, x.bits, ToBits(t))) }
  function Add(x: Word, y: Word): Word { Word(BitsAdd(x.bits, y.bits)) }

  /** Circular left shift, by the amounts the algorithm uses. */
  function BitsRotate(x: bv32, s: nat): bv32 {
    if s == 4 then x.RotateLeft(4) else if s == 5 then x.RotateLeft(5)
    else if s == 6 then x.RotateLeft(6) else if s == 7 then x.RotateLeft(7)
    else if s == 9 then x.RotateLeft(9) else if s == 10 then x.RotateLeft(10)
    else if s == 11 then x.RotateLeft(11) else if s == 12 then x.RotateLeft(12)
    else if s == 14 then x.RotateLeft(14) else if s == 15 then x.RotateLeft(15)
    else if s == 16 then x.RotateLeft(16) else if s == 17 then x.RotateLeft(17)
    else if s == 20 then x.RotateLeft(20) else if s == 21 then x.RotateLeft(21)
    else if s == 22 then x.RotateLeft(22) else if s == 23 then x.RotateLeft(23)
    else x
  }

  function Rotate(w: Word, s: nat): Word { Word(BitsRotate(w.bits, s)) }

  predicate ShiftUsed(s: nat) {
    s in {4, 5, 6, 7, 9, 10, 11, 12, 14, 15, 16, 17, 20, 21, 22, 23}
  }

  function Cyclic(w: bv32, s: nat): bv32
    requires 0 < s < 32
  {
    (w << s) | (w >> (32 - s))
  }

  lemma CyclicShort(w: bv32, s: nat)
    requires s in {4, 5, 6, 7, 9, 10, 11, 12}
    ensures Cyclic(w, s) == BitsRotate(w, s)
  {
    assert Cyclic(w, 4) == BitsRotate(w, 4);
    assert Cyclic(w, 5) == BitsRotate(w, 5);
    assert Cyclic(w, 6) == BitsRotate(w, 6);
    assert Cyclic(w, 7) == BitsRotate(w, 7);
    assert Cyclic(w, 9) == BitsRotate(w, 9);
    assert Cyclic(w, 10) == BitsRotate(w, 10);
    assert Cyclic(w, 11) == BitsRotate(w, 11);
    assert Cyclic(w, 12) == BitsRotate(w, 12);
  }

  lemma CyclicLong(w: bv32, s: nat)
    requires s in {14, 15, 16, 17, 20, 21, 22, 23}
    ensures Cyclic(w, s) == BitsRotate(w, s)
  {
    assert Cyclic(w, 14) == BitsRotate(w, 14);
    assert Cyclic(w, 15) == BitsRotate(w, 15);
    assert Cyclic(w, 16) == BitsRotate(w, 16);
    assert Cyclic(w, 17) == BitsRotate(w, 17);
    assert Cyclic(w, 20) == BitsRotate(w, 20);
    assert Cyclic(w, 21) == BitsRotate(w, 21);
    assert Cyclic(w, 22) == BitsRotate(w, 22);
    assert Cyclic(w, 23) == BitsRotate(w, 23);
  }

  /** Two shifts make the rotation, for every shift the algorithm uses. */
  lemma CyclicIsRotate(w: bv32, s: nat)
    requires ShiftUsed(s)
    ensures 0 < s < 32 && Cyclic(w, s) == BitsRotate(w, s)
  {
    if s <= 12 {
      CyclicShort(w, s);
    } else {
      CyclicLong(w, s);
    }
  }

  /** What the macros of all four rounds share: add, rotate by two shifts, add. */
  method Turned(a: Word, b: Word, f: Word, k: Word, s: nat, t: Constant) returns (r: Word)
    requires ShiftUsed(s)
    ensures r == Add(b, Rotate(Sum(a, f, k, t), s))
  {
    var v := TurnedBits(a.bits, b.bits, f.bits, k.bits, s, ToBits(t));
    r := Word(v);
  }

  method TurnedBits(a: bv32, b: bv32, f: bv32, k: bv32, s: nat, t: bv32) returns (r: bv32)
    requires ShiftUsed(s)
    ensures r == BitsAdd(b, BitsRotate(BitsSum(a, f, k, t), s))
  {
    SumIs(a, f, k, t);
    r := CyclicShift(a + (f + k + t), s);
    AddIs(r, b);
    r := r + b;
  }

  method Plus(x: Word, y: Word) returns (r: Word)
    ensures r == Add(x, y)
  {
    AddIs(y.bits, x.bits);
    r := Word(y.bits + x.bits);
  }

  method CyclicShift(w: bv32, s: nat) returns (r: bv32)
    requires ShiftUsed(s)
    ensures r == BitsRotate(w, s)
  {
    CyclicIsRotate(w, s);
    r := Cyclic(w, s);
  }

  // ---------- words as bytes ----------

  type Byte = bv8

  /** Four bytes, low-order byte first. */
  function Load(b: seq<Byte>, p: nat): Word
    requires p + 4 <= |b|
  {
    Word((b[p] as bv32) | ((b[p + 1] as bv32) << 8) | ((b[p + 2] as bv32) << 16) | ((b[p + 3] as bv32) << 24))
  }

  function Bytes(w: Word): (r: seq<Byte>)
    ensures |r| == 4
  {
    [(w.bits & 0xff) as Byte, ((w.bits >> 8) & 0xff) as Byte, ((w.bits >> 16) & 0xff) as Byte, (w.bits >> 24) as Byte]
  }
}
