/** The tools to run the 64-step loop on words that are written out. */
module Md5Traces {
  import opened Md5Words
  import opened Md5Rounds

  function AuxBits(round: nat, x: bv32, y: bv32, z: bv32): bv32 {
    if round == 0 then BitsF(x, y, z)
    else if round == 1 then BitsG(x, y, z)
    else if round == 2 then BitsH(x, y, z)
    else BitsI(x, y, z)
  }

  /** The operation of one step on the bits of the words. */
  function StepBits(round: nat, a: bv32, b: bv32, c: bv32, d: bv32, k: bv32, s: nat, t: bv32): bv32 {
    BitsAdd(b, BitsRotate(BitsSum(a, AuxBits(round, b, c, d), k, t), s))
  }

  function ChainOf(a: bv32, b: bv32, c: bv32, d: bv32): Chain {
    Chain(Word(a), Word(b), Word(c), Word(d))
  }

  /** `bits` is the conversion of constants; the proofs use this only where they name `ToBits`. */
  ghost predicate IsToBits(bits: Constant -> bv32) {
    forall n: Constant {:trigger ToBits(n)} :: bits(n) == ToBits(n)
  }

  /** Step `i` has the rotation `s` and the constant `t`. */
  predicate Has(bits: Constant -> bv32, i: nat, s: nat, t: bv32) {
    S(i) == s && bits(T(i)) == t
  }

  lemma MixOnBits(round: nat, a: bv32, b: bv32, c: bv32, d: bv32, k: bv32, s: nat, n: Constant)
    ensures Mix(Aux(round, Word(b), Word(c), Word(d)), Word(a), Word(b), Word(k), s, n) ==
      Word(StepBits(round, a, b, c, d, k, s, ToBits(n)))
  {
  }

  lemma OpOnBits(op: Operation, bits: Constant -> bv32, i: nat, a: bv32, b: bv32, c: bv32, d: bv32, k: bv32, s: nat,
      t: bv32)
    requires IsOp(op) && IsToBits(bits) && Has(bits, i, s, t)
    ensures op(i, Word(a), Word(b), Word(c), Word(d), Word(k)) == Word(StepBits(i / 16, a, b, c, d, k, s, t))
  {
    StepOnBits(op, bits, i, i / 16, T(i), a, b, c, d, k, s, t);
  }

  lemma StepOnBits(op: Operation, bits: Constant -> bv32, i: nat, round: nat, n: Constant,
      a: bv32, b: bv32, c: bv32, d: bv32, k: bv32, s: nat, t: bv32)
    requires IsOp(op) && IsToBits(bits) && round == i / 16 && n == T(i) && s == S(i) && bits(n) == t
    ensures op(i, Word(a), Word(b), Word(c), Word(d), Word(k)) == Word(StepBits(round, a, b, c, d, k, s, t))
  {
    RowIs(op, round, i, s, n);
    MixOnBits(round, a, b, c, d, k, s, n);
    assert bits(n) == ToBits(n);
  }

  /** The sixteen words of a block. */
  predicate AreWords(x: seq<Word>, w0: bv32, w1: bv32, w2: bv32, w3: bv32, w4: bv32, w5: bv32, w6: bv32, w7: bv32,
      w8: bv32, w9: bv32, w10: bv32, w11: bv32, w12: bv32, w13: bv32, w14: bv32, w15: bv32)
  {
    && |x| == 16
    && x[0] == Word(w0) && x[1] == Word(w1) && x[2] == Word(w2) && x[3] == Word(w3)
    && x[4] == Word(w4) && x[5] == Word(w5) && x[6] == Word(w6) && x[7] == Word(w7)
    && x[8] == Word(w8) && x[9] == Word(w9) && x[10] == Word(w10) && x[11] == Word(w11)
    && x[12] == Word(w12) && x[13] == Word(w13) && x[14] == Word(w14) && x[15] == Word(w15)
  }

  /** Four steps from `i` on, with their words, rotations, constants and results. */
  lemma Four(op: Operation, bits: Constant -> bv32, s: Chain, x: seq<Word>, i: nat, a: bv32, b: bv32, c: bv32, d: bv32,
      k0: bv32, k1: bv32, k2: bv32, k3: bv32, s0: nat, s1: nat, s2: nat, s3: nat,
      t0: bv32, t1: bv32, t2: bv32, t3: bv32, A: bv32, B: bv32, C: bv32, D: bv32)
    requires IsOp(op) && IsToBits(bits) && |x| == 16 && Steps(op, i, s, x) == ChainOf(a, b, c, d)
    requires x[K(i)] == Word(k0) && x[K(i + 1)] == Word(k1) && x[K(i + 2)] == Word(k2) && x[K(i + 3)] == Word(k3)
    requires Has(bits, i, s0, t0) && Has(bits, i + 1, s1, t1)
    requires Has(bits, i + 2, s2, t2) && Has(bits, i + 3, s3, t3)
    requires A == StepBits(i / 16, a, b, c, d, k0, s0, t0) && D == StepBits((i + 1) / 16, d, A, b, c, k1, s1, t1)
    requires C == StepBits((i + 2) / 16, c, D, A, b, k2, s2, t2) && B == StepBits((i + 3) / 16, b, C, D, A, k3, s3, t3)
    ensures Steps(op, i + 4, s, x) == ChainOf(A, B, C, D)
  {
    OpOnBits(op, bits, i, a, b, c, d, k0, s0, t0);
    OpOnBits(op, bits, i + 1, d, A, b, c, k1, s1, t1);
    OpOnBits(op, bits, i + 2, c, D, A, b, k2, s2, t2);
    OpOnBits(op, bits, i + 3, b, C, D, A, k3, s3, t3);
    FourSteps(op, i, s, ChainOf(a, b, c, d), x, Word(k0), Word(k1), Word(k2), Word(k3), Word(A), Word(B), Word(C),
        Word(D));
  }

  // ---------- the constants as bits ----------

  lemma Bits0(bits: Constant -> bv32)
    requires IsToBits(bits)
    ensures bits(0xd76aa478) == 0xd76aa478 && bits(0xe8c7b756) == 0xe8c7b756
    ensures bits(0x242070db) == 0x242070db && bits(0xc1bdceee) == 0xc1bdceee
  {
    assert ToBits(0xd76aa478) == 0xd76aa478 && ToBits(0xe8c7b756) == 0xe8c7b756;
    assert ToBits(0x242070db) == 0x242070db && ToBits(0xc1bdceee) == 0xc1bdceee;
  }

  lemma Bits1(bits: Constant -> bv32)
    requires IsToBits(bits)
    ensures bits(0xf57c0faf) == 0xf57c0faf && bits(0x4787c62a) == 0x4787c62a
    ensures bits(0xa8304613) == 0xa8304613 && bits(0xfd469501) == 0xfd469501
  {
    assert ToBits(0xf57c0faf) == 0xf57c0faf && ToBits(0x4787c62a) == 0x4787c62a;
    assert ToBits(0xa8304613) == 0xa8304613 && ToBits(0xfd469501) == 0xfd469501;
  }

  lemma Bits2(bits: Constant -> bv32)
    requires IsToBits(bits)
    ensures bits(0x698098d8) == 0x698098d8 && bits(0x8b44f7af) == 0x8b44f7af
    ensures bits(0xffff5bb1) == 0xffff5bb1 && bits(0x895cd7be) == 0x895cd7be
  {
    assert ToBits(0x698098d8) == 0x698098d8 && ToBits(0x8b44f7af) == 0x8b44f7af;
    assert ToBits(0xffff5bb1) == 0xffff5bb1 && ToBits(0x895cd7be) == 0x895cd7be;
  }

  lemma Bits3(bits: Constant -> bv32)
    requires IsToBits(bits)
    ensures bits(0x6b901122) == 0x6b901122 && bits(0xfd987193) == 0xfd987193
    ensures bits(0xa679438e) == 0xa679438e && bits(0x49b40821) == 0x49b40821
  {
    assert ToBits(0x6b901122) == 0x6b901122 && ToBits(0xfd987193) == 0xfd987193;
    assert ToBits(0xa679438e) == 0xa679438e && ToBits(0x49b40821) == 0x49b40821;
  }

  lemma Bits4(bits: Constant -> bv32)
    requires IsToBits(bits)
    ensures bits(0xf61e2562) == 0xf61e2562 && bits(0xc040b340) == 0xc040b340
    ensures bits(0x265e5a51) == 0x265e5a51 && bits(0xe9b6c7aa) == 0xe9b6c7aa
  {
    assert ToBits(0xf61e2562) == 0xf61e2562 && ToBits(0xc040b340) == 0xc040b340;
    assert ToBits(0x265e5a51) == 0x265e5a51 && ToBits(0xe9b6c7aa) == 0xe9b6c7aa;
  }

  lemma Bits5(bits: Constant -> bv32)
    requires IsToBits(bits)
    ensures bits(0xd62f105d) == 0xd62f105d && bits(0x02441453) == 0x02441453
    ensures bits(0xd8a1e681) == 0xd8a1e681 && bits(0xe7d3fbc8) == 0xe7d3fbc8
  {
    assert ToBits(0xd62f105d) == 0xd62f105d && ToBits(0x02441453) == 0x02441453;
    assert ToBits(0xd8a1e681) == 0xd8a1e681 && ToBits(0xe7d3fbc8) == 0xe7d3fbc8;
  }

  lemma Bits6(bits: Constant -> bv32)
    requires IsToBits(bits)
    ensures bits(0x21e1cde6) == 0x21e1cde6 && bits(0xc33707d6) == 0xc33707d6
    ensures bits(0xf4d50d87) == 0xf4d50d87 && bits(0x455a14ed) == 0x455a14ed
  {
    assert ToBits(0x21e1cde6) == 0x21e1cde6 && ToBits(0xc33707d6) == 0xc33707d6;
    assert ToBits(0xf4d50d87) == 0xf4d50d87 && ToBits(0x455a14ed) == 0x455a14ed;
  }

  lemma Bits7(bits: Constant -> bv32)
    requires IsToBits(bits)
    ensures bits(0xa9e3e905) == 0xa9e3e905 && bits(0xfcefa3f8) == 0xfcefa3f8
    ensures bits(0x676f02d9) == 0x676f02d9 && bits(0x8d2a4c8a) == 0x8d2a4c8a
  {
    assert ToBits(0xa9e3e905) == 0xa9e3e905 && ToBits(0xfcefa3f8) == 0xfcefa3f8;
    assert ToBits(0x676f02d9) == 0x676f02d9 && ToBits(0x8d2a4c8a) == 0x8d2a4c8a;
  }

  lemma Bits8(bits: Constant -> bv32)
    requires IsToBits(bits)
    ensures bits(0xfffa3942) == 0xfffa3942 && bits(0x8771f681) == 0x8771f681
    ensures bits(0x6d9d6122) == 0x6d9d6122 && bits(0xfde5380c) == 0xfde5380c
  {
    assert ToBits(0xfffa3942) == 0xfffa3942 && ToBits(0x8771f681) == 0x8771f681;
    assert ToBits(0x6d9d6122) == 0x6d9d6122 && ToBits(0xfde5380c) == 0xfde5380c;
  }

  lemma Bits9(bits: Constant -> bv32)
    requires IsToBits(bits)
    ensures bits(0xa4beea44) == 0xa4beea44 && bits(0x4bdecfa9) == 0x4bdecfa9
    ensures bits(0xf6bb4b60) == 0xf6bb4b60 && bits(0xbebfbc70) == 0xbebfbc70
  {
    assert ToBits(0xa4beea44) == 0xa4beea44 && ToBits(0x4bdecfa9) == 0x4bdecfa9;
    assert ToBits(0xf6bb4b60) == 0xf6bb4b60 && ToBits(0xbebfbc70) == 0xbebfbc70;
  }

  lemma Bits10(bits: Constant -> bv32)
    requires IsToBits(bits)
    ensures bits(0x289b7ec6) == 0x289b7ec6 && bits(0xeaa127fa) == 0xeaa127fa
    ensures bits(0xd4ef3085) == 0xd4ef3085 && bits(0x04881d05) == 0x04881d05
  {
    assert ToBits(0x289b7ec6) == 0x289b7ec6 && ToBits(0xeaa127fa) == 0xeaa127fa;
    assert ToBits(0xd4ef3085) == 0xd4ef3085 && ToBits(0x04881d05) == 0x04881d05;
  }

  lemma Bits11(bits: Constant -> bv32)
    requires IsToBits(bits)
    ensures bits(0xd9d4d039) == 0xd9d4d039 && bits(0xe6db99e5) == 0xe6db99e5
    ensures bits(0x1fa27cf8) == 0x1fa27cf8 && bits(0xc4ac5665) == 0xc4ac5665
  {
    assert ToBits(0xd9d4d039) == 0xd9d4d039 && ToBits(0xe6db99e5) == 0xe6db99e5;
    assert ToBits(0x1fa27cf8) == 0x1fa27cf8 && ToBits(0xc4ac5665) == 0xc4ac5665;
  }

  lemma Bits12(bits: Constant -> bv32)
    requires IsToBits(bits)
    ensures bits(0xf4292244) == 0xf4292244 && bits(0x432aff97) == 0x432aff97
    ensures bits(0xab9423a7) == 0xab9423a7 && bits(0xfc93a039) == 0xfc93a039
  {
    assert ToBits(0xf4292244) == 0xf4292244 && ToBits(0x432aff97) == 0x432aff97;
    assert ToBits(0xab9423a7) == 0xab9423a7 && ToBits(0xfc93a039) == 0xfc93a039;
  }

  lemma Bits13(bits: Constant -> bv32)
    requires IsToBits(bits)
    ensures bits(0x655b59c3) == 0x655b59c3 && bits(0x8f0ccc92) == 0x8f0ccc92
    ensures bits(0xffeff47d) == 0xffeff47d && bits(0x85845dd1) == 0x85845dd1
  {
    assert ToBits(0x655b59c3) == 0x655b59c3 && ToBits(0x8f0ccc92) == 0x8f0ccc92;
    assert ToBits(0xffeff47d) == 0xffeff47d && ToBits(0x85845dd1) == 0x85845dd1;
  }

  lemma Bits14(bits: Constant -> bv32)
    requires IsToBits(bits)
    ensures bits(0x6fa87e4f) == 0x6fa87e4f && bits(0xfe2ce6e0) == 0xfe2ce6e0
    ensures bits(0xa3014314) == 0xa3014314 && bits(0x4e0811a1) == 0x4e0811a1
  {
    assert ToBits(0x6fa87e4f) == 0x6fa87e4f && ToBits(0xfe2ce6e0) == 0xfe2ce6e0;
    assert ToBits(0xa3014314) == 0xa3014314 && ToBits(0x4e0811a1) == 0x4e0811a1;
  }

  lemma Bits15(bits: Constant -> bv32)
    requires IsToBits(bits)
    ensures bits(0xf7537e82) == 0xf7537e82 && bits(0xbd3af235) == 0xbd3af235
    ensures bits(0x2ad7d2bb) == 0x2ad7d2bb && bits(0xeb86d391) == 0xeb86d391
  {
    assert ToBits(0xf7537e82) == 0xf7537e82 && ToBits(0xbd3af235) == 0xbd3af235;
    assert ToBits(0x2ad7d2bb) == 0x2ad7d2bb && ToBits(0xeb86d391) == 0xeb86d391;
  }
}
