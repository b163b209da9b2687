/**
 The compression function of MD5: RFC 1321, section 3.4, as a table-driven loop, and the unrolled
 code of `process_block`.
 */
module Md5Rounds {
  import opened Md5Words

  datatype Chain = Chain(a: Word, b: Word, c: Word, d: Word)

  // ---------- the tables of RFC 1321 ----------

  function Aux(round: nat, x: Word, y: Word, z: Word): Word {
    if round == 0 then F(x, y, z)
    else if round == 1 then G(x, y, z)
    else if round == 2 then H(x, y, z)
    else I(x, y, z)
  }

  /** The word of the block that step `i` uses. */
  function K(i: nat): (k: nat)
    ensures k < 16
  {
    if i < 16 then i
    else if i < 32 then (5 * i + 1) % 16
    else if i < 48 then (3 * i + 5) % 16
    else 7 * i % 16
  }

  /** The rotation of step `i`. */
  function S(i: nat): nat {
    if i < 16 then Pick(i % 4, 7, 12, 17, 22)
    else if i < 32 then Pick(i % 4, 5, 9, 14, 20)
    else if i < 48 then Pick(i % 4, 4, 11, 16, 23)
    else Pick(i % 4, 6, 10, 15, 21)
  }

  function Pick(j: nat, x0: Constant, x1: Constant, x2: Constant, x3: Constant): Constant {
    if j == 0 then x0 else if j == 1 then x1 else if j == 2 then x2 else x3
  }

  datatype Quadruple = Quadruple(t0: Constant, t1: Constant, t2: Constant, t3: Constant)

  /** The constants of the steps 4j to 4j+3: the integer part of 4294967296 times abs(sin(i + 1)) for step i. */
  function Constants(j: nat): Quadruple {
    if j < 8 then
      if j < 4 then
        if j < 2 then
          if j < 1 then
            Quadruple(0xd76aa478, 0xe8c7b756, 0x242070db, 0xc1bdceee)
          else
            Quadruple(0xf57c0faf, 0x4787c62a, 0xa8304613, 0xfd469501)
        else
          if j < 3 then
            Quadruple(0x698098d8, 0x8b44f7af, 0xffff5bb1, 0x895cd7be)
          else
            Quadruple(0x6b901122, 0xfd987193, 0xa679438e, 0x49b40821)
      else
        if j < 6 then
          if j < 5 then
            Quadruple(0xf61e2562, 0xc040b340, 0x265e5a51, 0xe9b6c7aa)
          else
            Quadruple(0xd62f105d, 0x02441453, 0xd8a1e681, 0xe7d3fbc8)
        else
          if j < 7 then
            Quadruple(0x21e1cde6, 0xc33707d6, 0xf4d50d87, 0x455a14ed)
          else
            Quadruple(0xa9e3e905, 0xfcefa3f8, 0x676f02d9, 0x8d2a4c8a)
    else
      if j < 12 then
        if j < 10 then
          if j < 9 then
            Quadruple(0xfffa3942, 0x8771f681, 0x6d9d6122, 0xfde5380c)
          else
            Quadruple(0xa4beea44, 0x4bdecfa9, 0xf6bb4b60, 0xbebfbc70)
        else
          if j < 11 then
            Quadruple(0x289b7ec6, 0xeaa127fa, 0xd4ef3085, 0x04881d05)
          else
            Quadruple(0xd9d4d039, 0xe6db99e5, 0x1fa27cf8, 0xc4ac5665)
      else
        if j < 14 then
          if j < 13 then
            Quadruple(0xf4292244, 0x432aff97, 0xab9423a7, 0xfc93a039)
          else
            Quadruple(0x655b59c3, 0x8f0ccc92, 0xffeff47d, 0x85845dd1)
        else
          if j < 15 then
            Quadruple(0x6fa87e4f, 0xfe2ce6e0, 0xa3014314, 0x4e0811a1)
          else
            Quadruple(0xf7537e82, 0xbd3af235, 0x2ad7d2bb, 0xeb86d391)
  }

  function At(c: Quadruple, q: nat): Constant {
    Pick(q, c.t0, c.t1, c.t2, c.t3)
  }

  function T(i: nat): Constant {
    At(Constants(i / 4), i % 4)
  }

  /** The new value of `a` in one step, whatever the round: f is the round's function of b, c, d. */
  function Mix(f: Word, a: Word, b: Word, x: Word, s: nat, t: Constant): Word {
    Add(b, Rotate(Sum(a, f, x, t), s))
  }

  /** The operation of step `i`. */
  function Op(i: nat, a: Word, b: Word, c: Word, d: Word, x: Word): Word {
    Mix(Aux(i / 16, b, c, d), a, b, x, S(i), T(i))
  }

  /** An operation; the loop below does not depend on what it computes. */
  type Operation = (nat, Word, Word, Word, Word, Word) -> Word

  /** One step of the loop: compute, then rename the words. */
  function Next(op: Operation, i: nat, s: Chain, x: seq<Word>): Chain
    requires |x| == 16
  {
    Chain(s.d, op(i, s.a, s.b, s.c, s.d, x[K(i)]), s.b, s.c)
  }

  /** The first `n` steps of the 64-step loop. */
  function Steps(op: Operation, n: nat, s: Chain, x: seq<Word>): Chain
    requires |x| == 16
  {
    if n == 0 then s else Next(op, n - 1, Steps(op, n - 1, s, x), x)
  }

  /** `op` is the operation of the RFC; the proofs use this only where they name `Op`. */
  ghost predicate IsOp(op: Operation) {
    forall i: nat, a, b, c, d, x {:trigger Op(i, a, b, c, d, x)} :: op(i, a, b, c, d, x) == Op(i, a, b, c, d, x)
  }

  // ---------- the macros of the implementation ----------

  /** Step `i` belongs to `round` and has the rotation `s` and the constant `t`. */
  ghost predicate Row(op: Operation, round: nat, i: nat, s: nat, t: Constant) {
    ShiftUsed(s) && forall a, b, c, d, x {:trigger Mix(Aux(round, b, c, d), a, b, x, s, t)} ::
        op(i, a, b, c, d, x) == Mix(Aux(round, b, c, d), a, b, x, s, t)
  }

  lemma RowIs(op: Operation, round: nat, i: nat, s: nat, t: Constant)
    requires IsOp(op) && round == i / 16 && s == S(i) && t == T(i)
    ensures Row(op, round, i, s, t)
  {
    forall a, b, c, d, x ensures op(i, a, b, c, d, x) == Mix(Aux(round, b, c, d), a, b, x, s, t) {
      assert op(i, a, b, c, d, x) == Op(i, a, b, c, d, x);
    }
  }

  lemma Quarter(i: nat, q: nat)
    requires i % 4 == 0 && q < 4
    ensures (i + q) / 4 == i / 4 && (i + q) % 4 == q && (i + q) / 16 == i / 16
  {
  }

  lemma RowAt(op: Operation, round: nat, i: nat, q: nat, s: nat, t: Constant)
    requires IsOp(op) && round == i / 16 && i % 4 == 0 && q < 4 && s == S(i + q) && t == At(Constants(i / 4), q)
    ensures Row(op, round, i + q, s, t)
  {
    Quarter(i, q);
    RowIs(op, round, i + q, s, t);
  }

  lemma FourRows(op: Operation, round: nat, i: nat, s0: nat, s1: nat, s2: nat, s3: nat,
      t0: Constant, t1: Constant, t2: Constant, t3: Constant)
    requires IsOp(op) && round == i / 16 && i % 4 == 0 && Quadruple(t0, t1, t2, t3) == Constants(i / 4)
    requires s0 == S(i) && s1 == S(i + 1) && s2 == S(i + 2) && s3 == S(i + 3)
    ensures Row(op, round, i, s0, t0) && Row(op, round, i + 1, s1, t1)
    ensures Row(op, round, i + 2, s2, t2) && Row(op, round, i + 3, s3, t3)
  {
    RowAt(op, round, i, 0, s0, t0);
    RowAt(op, round, i, 1, s1, t1);
    RowAt(op, round, i, 2, s2, t2);
    RowAt(op, round, i, 3, s3, t3);
  }

  /** `OP1` once its word is loaded. */
  method OpFF(ghost op: Operation, ghost i: nat, a: Word, b: Word, c: Word, d: Word, k: Word, s: nat, t: Constant)
      returns (r: Word)
    requires Row(op, 0, i, s, t)
    ensures r == op(i, a, b, c, d, k)
  {
    FFIsF(b, c, d);
    r := Turned(a, b, FF(b, c, d), k, s, t);
    assert r == Mix(Aux(0, b, c, d), a, b, k, s, t);
  }

  /** `OP234` with `FG`. */
  method OpFG(ghost op: Operation, ghost i: nat, a: Word, b: Word, c: Word, d: Word, k: Word, s: nat, t: Constant)
      returns (r: Word)
    requires Row(op, 1, i, s, t)
    ensures r == op(i, a, b, c, d, k)
  {
    FGIsG(b, c, d);
    r := Turned(a, b, FG(b, c, d), k, s, t);
    assert r == Mix(Aux(1, b, c, d), a, b, k, s, t);
  }

  /** `OP234` with `FH`. */
  method OpFH(ghost op: Operation, ghost i: nat, a: Word, b: Word, c: Word, d: Word, k: Word, s: nat, t: Constant)
      returns (r: Word)
    requires Row(op, 2, i, s, t)
    ensures r == op(i, a, b, c, d, k)
  {
    FHIsH(b, c, d);
    r := Turned(a, b, FH(b, c, d), k, s, t);
    assert r == Mix(Aux(2, b, c, d), a, b, k, s, t);
  }

  /** `OP234` with `FI`. */
  method OpFI(ghost op: Operation, ghost i: nat, a: Word, b: Word, c: Word, d: Word, k: Word, s: nat, t: Constant)
      returns (r: Word)
    requires Row(op, 3, i, s, t)
    ensures r == op(i, a, b, c, d, k)
  {
    FIIsI(b, c, d);
    r := Turned(a, b, FI(b, c, d), k, s, t);
    assert r == Mix(Aux(3, b, c, d), a, b, k, s, t);
  }

  /** Four steps bring the words back to their places. */
  lemma FourSteps(op: Operation, i: nat, s0: Chain, s: Chain, x: seq<Word>, k0: Word, k1: Word, k2: Word, k3: Word,
      A: Word, B: Word, C: Word, D: Word)
    requires |x| == 16 && s == Steps(op, i, s0, x)
    requires k0 == x[K(i)] && k1 == x[K(i + 1)] && k2 == x[K(i + 2)] && k3 == x[K(i + 3)]
    requires A == op(i, s.a, s.b, s.c, s.d, k0) && D == op(i + 1, s.d, A, s.b, s.c, k1)
    requires C == op(i + 2, s.c, D, A, s.b, k2) && B == op(i + 3, s.b, C, D, A, k3)
    ensures Chain(A, B, C, D) == Steps(op, i + 4, s0, x)
  {
    assert Steps(op, i + 1, s0, x) == Chain(s.d, A, s.b, s.c);
    assert Steps(op, i + 2, s0, x) == Chain(s.c, D, A, s.b);
    assert Steps(op, i + 3, s0, x) == Chain(s.b, C, D, A);
  }

  // ---------- the words of a block ----------

  function WordAt(block: seq<Byte>, i: nat): Word
    requires |block| == 64 && i < 16
  {
    Load(block, 4 * i)
  }

  ghost predicate IsWords(x: seq<Word>, block: seq<Byte>)
    requires |block| == 64
  {
    |x| == 16 && forall i {:trigger WordAt(block, i)} :: 0 <= i < 16 ==> x[i] == WordAt(block, i)
  }

  /** `OP1`: load the word, keep it for the later rounds, and use it. */
  method Op1(ghost op: Operation, ghost x: seq<Word>, block: seq<Byte>, correct: array<Word>, i: nat,
      a: Word, b: Word, c: Word, d: Word, s: nat, t: Constant) returns (r: Word)
    requires Row(op, 0, i, s, t) && i < 16 && |block| == 64 && IsWords(x, block)
    requires correct.Length == 16 && correct[..i] == x[..i]
    modifies correct
    ensures r == op(i, a, b, c, d, x[i]) && correct[..i + 1] == x[..i + 1]
  {
    correct[i] := WordAt(block, i);
    assert x[..i + 1] == x[..i] + [x[i]];
    r := OpFF(op, i, a, b, c, d, correct[i], s, t);
  }

  /** Four uses of `OP1`, each word of the chain in its turn. */
  method FourFF(ghost op: Operation, i: nat, ghost s0: Chain, ghost x: seq<Word>, s: Chain, block: seq<Byte>,
      correct: array<Word>,
      t0: Constant, t1: Constant, t2: Constant, t3: Constant) returns (r: Chain)
    requires IsOp(op) && i <= 12 && i % 4 == 0 && |block| == 64 && IsWords(x, block) && s == Steps(op, i, s0, x)
    requires correct.Length == 16 && correct[..i] == x[..i]
    requires Quadruple(t0, t1, t2, t3) == Constants(i / 4)
    modifies correct
    ensures r == Steps(op, i + 4, s0, x) && correct[..i + 4] == x[..i + 4]
  {
    FourRows(op, 0, i, 7, 12, 17, 22, t0, t1, t2, t3);
    var Chain(A, B, C, D) := s;
    A := Op1(op, x, block, correct, i, A, B, C, D, 7, t0);
    D := Op1(op, x, block, correct, i + 1, D, A, B, C, 12, t1);
    C := Op1(op, x, block, correct, i + 2, C, D, A, B, 17, t2);
    B := Op1(op, x, block, correct, i + 3, B, C, D, A, 22, t3);
    FourSteps(op, i, s0, s, x, x[i], x[i + 1], x[i + 2], x[i + 3], A, B, C, D);
    r := Chain(A, B, C, D);
  }

  /** Four uses of `OP234` with `FG`. */
  method FourFG(ghost op: Operation, ghost i: nat, ghost s0: Chain, ghost x: seq<Word>, s: Chain,
      k0: Word, k1: Word, k2: Word, k3: Word, t0: Constant, t1: Constant, t2: Constant, t3: Constant) returns (r: Chain)
    requires IsOp(op) && 16 <= i <= 28 && i % 4 == 0 && |x| == 16 && s == Steps(op, i, s0, x)
    requires k0 == x[K(i)] && k1 == x[K(i + 1)] && k2 == x[K(i + 2)] && k3 == x[K(i + 3)]
    requires Quadruple(t0, t1, t2, t3) == Constants(i / 4)
    ensures r == Steps(op, i + 4, s0, x)
  {
    FourRows(op, 1, i, 5, 9, 14, 20, t0, t1, t2, t3);
    var Chain(A, B, C, D) := s;
    A := OpFG(op, i, A, B, C, D, k0, 5, t0);
    D := OpFG(op, i + 1, D, A, B, C, k1, 9, t1);
    C := OpFG(op, i + 2, C, D, A, B, k2, 14, t2);
    B := OpFG(op, i + 3, B, C, D, A, k3, 20, t3);
    FourSteps(op, i, s0, s, x, k0, k1, k2, k3, A, B, C, D);
    r := Chain(A, B, C, D);
  }

  /** Four uses of `OP234` with `FH`. */
  method FourFH(ghost op: Operation, ghost i: nat, ghost s0: Chain, ghost x: seq<Word>, s: Chain,
      k0: Word, k1: Word, k2: Word, k3: Word, t0: Constant, t1: Constant, t2: Constant, t3: Constant) returns (r: Chain)
    requires IsOp(op) && 32 <= i <= 44 && i % 4 == 0 && |x| == 16 && s == Steps(op, i, s0, x)
    requires k0 == x[K(i)] && k1 == x[K(i + 1)] && k2 == x[K(i + 2)] && k3 == x[K(i + 3)]
    requires Quadruple(t0, t1, t2, t3) == Constants(i / 4)
    ensures r == Steps(op, i + 4, s0, x)
  {
    FourRows(op, 2, i, 4, 11, 16, 23, t0, t1, t2, t3);
    var Chain(A, B, C, D) := s;
    A := OpFH(op, i, A, B, C, D, k0, 4, t0);
    D := OpFH(op, i + 1, D, A, B, C, k1, 11, t1);
    C := OpFH(op, i + 2, C, D, A, B, k2, 16, t2);
    B := OpFH(op, i + 3, B, C, D, A, k3, 23, t3);
    FourSteps(op, i, s0, s, x, k0, k1, k2, k3, A, B, C, D);
    r := Chain(A, B, C, D);
  }

  /** Four uses of `OP234` with `FI`. */
  method FourFI(ghost op: Operation, ghost i: nat, ghost s0: Chain, ghost x: seq<Word>, s: Chain,
      k0: Word, k1: Word, k2: Word, k3: Word, t0: Constant, t1: Constant, t2: Constant, t3: Constant) returns (r: Chain)
    requires IsOp(op) && 48 <= i <= 60 && i % 4 == 0 && |x| == 16 && s == Steps(op, i, s0, x)
    requires k0 == x[K(i)] && k1 == x[K(i + 1)] && k2 == x[K(i + 2)] && k3 == x[K(i + 3)]
    requires Quadruple(t0, t1, t2, t3) == Constants(i / 4)
    ensures r == Steps(op, i + 4, s0, x)
  {
    FourRows(op, 3, i, 6, 10, 15, 21, t0, t1, t2, t3);
    var Chain(A, B, C, D) := s;
    A := OpFI(op, i, A, B, C, D, k0, 6, t0);
    D := OpFI(op, i + 1, D, A, B, C, k1, 10, t1);
    C := OpFI(op, i + 2, C, D, A, B, k2, 15, t2);
    B := OpFI(op, i + 3, B, C, D, A, k3, 21, t3);
    FourSteps(op, i, s0, s, x, k0, k1, k2, k3, A, B, C, D);
    r := Chain(A, B, C, D);
  }

  method FirstRound(ghost op: Operation, ghost x: seq<Word>, block: seq<Byte>, correct: array<Word>, s: Chain)
      returns (r: Chain)
    requires IsOp(op) && |block| == 64 && IsWords(x, block) && correct.Length == 16
    modifies correct
    ensures correct[..] == x && r == Steps(op, |x|, s, x)
  {
    r := s;
    r := FourFF(op, 0, s, x, r, block, correct, 0xd76aa478, 0xe8c7b756, 0x242070db, 0xc1bdceee);
    r := FourFF(op, 4, s, x, r, block, correct, 0xf57c0faf, 0x4787c62a, 0xa8304613, 0xfd469501);
    r := FourFF(op, 8, s, x, r, block, correct, 0x698098d8, 0x8b44f7af, 0xffff5bb1, 0x895cd7be);
    r := FourFF(op, 12, s, x, r, block, correct, 0x6b901122, 0xfd987193, 0xa679438e, 0x49b40821);
    assert correct[..] == x;
  }

  lemma SecondWords(n: nat)
    requires n == 16
    ensures K(n) == 1 && K(n + 1) == 6 && K(n + 2) == 11 && K(n + 3) == 0
    ensures K(n + 4) == 5 && K(n + 5) == 10 && K(n + 6) == 15 && K(n + 7) == 4
    ensures K(n + 8) == 9 && K(n + 9) == 14 && K(n + 10) == 3 && K(n + 11) == 8
    ensures K(n + 12) == 13 && K(n + 13) == 2 && K(n + 14) == 7 && K(n + 15) == 12
  {
  }

  method SecondRound(ghost op: Operation, ghost n: nat, ghost s0: Chain, correct: array<Word>, s: Chain)
      returns (r: Chain)
    requires IsOp(op) && n == 16 && correct.Length == 16 && s == Steps(op, n, s0, correct[..])
    ensures r == Steps(op, n + 16, s0, correct[..])
  {
    ghost var x := correct[..];
    SecondWords(n);
    r := FourFG(op, n, s0, x, s, correct[1], correct[6], correct[11], correct[0],
      0xf61e2562, 0xc040b340, 0x265e5a51, 0xe9b6c7aa);
    r := FourFG(op, n + 4, s0, x, r, correct[5], correct[10], correct[15], correct[4],
      0xd62f105d, 0x02441453, 0xd8a1e681, 0xe7d3fbc8);
    r := FourFG(op, n + 8, s0, x, r, correct[9], correct[14], correct[3], correct[8],
      0x21e1cde6, 0xc33707d6, 0xf4d50d87, 0x455a14ed);
    r := FourFG(op, n + 12, s0, x, r, correct[13], correct[2], correct[7], correct[12],
      0xa9e3e905, 0xfcefa3f8, 0x676f02d9, 0x8d2a4c8a);
  }

  lemma ThirdWords(n: nat)
    requires n == 32
    ensures K(n) == 5 && K(n + 1) == 8 && K(n + 2) == 11 && K(n + 3) == 14
    ensures K(n + 4) == 1 && K(n + 5) == 4 && K(n + 6) == 7 && K(n + 7) == 10
    ensures K(n + 8) == 13 && K(n + 9) == 0 && K(n + 10) == 3 && K(n + 11) == 6
    ensures K(n + 12) == 9 && K(n + 13) == 12 && K(n + 14) == 15 && K(n + 15) == 2
  {
  }

  method ThirdRound(ghost op: Operation, ghost n: nat, ghost s0: Chain, correct: array<Word>, s: Chain)
      returns (r: Chain)
    requires IsOp(op) && n == 32 && correct.Length == 16 && s == Steps(op, n, s0, correct[..])
    ensures r == Steps(op, n + 16, s0, correct[..])
  {
    ghost var x := correct[..];
    ThirdWords(n);
    r := FourFH(op, n, s0, x, s, correct[5], correct[8], correct[11], correct[14],
      0xfffa3942, 0x8771f681, 0x6d9d6122, 0xfde5380c);
    r := FourFH(op, n + 4, s0, x, r, correct[1], correct[4], correct[7], correct[10],
      0xa4beea44, 0x4bdecfa9, 0xf6bb4b60, 0xbebfbc70);
    r := FourFH(op, n + 8, s0, x, r, correct[13], correct[0], correct[3], correct[6],
      0x289b7ec6, 0xeaa127fa, 0xd4ef3085, 0x04881d05);
    r := FourFH(op, n + 12, s0, x, r, correct[9], correct[12], correct[15], correct[2],
      0xd9d4d039, 0xe6db99e5, 0x1fa27cf8, 0xc4ac5665);
  }

  lemma FourthWords(n: nat)
    requires n == 48
    ensures K(n) == 0 && K(n + 1) == 7 && K(n + 2) == 14 && K(n + 3) == 5
    ensures K(n + 4) == 12 && K(n + 5) == 3 && K(n + 6) == 10 && K(n + 7) == 1
    ensures K(n + 8) == 8 && K(n + 9) == 15 && K(n + 10) == 6 && K(n + 11) == 13
    ensures K(n + 12) == 4 && K(n + 13) == 11 && K(n + 14) == 2 && K(n + 15) == 9
  {
  }

  method FourthRound(ghost op: Operation, ghost n: nat, ghost s0: Chain, correct: array<Word>, s: Chain)
      returns (r: Chain)
    requires IsOp(op) && n == 48 && correct.Length == 16 && s == Steps(op, n, s0, correct[..])
    ensures r == Steps(op, n + 16, s0, correct[..])
  {
    ghost var x := correct[..];
    FourthWords(n);
    r := FourFI(op, n, s0, x, s, correct[0], correct[7], correct[14], correct[5],
      0xf4292244, 0x432aff97, 0xab9423a7, 0xfc93a039);
    r := FourFI(op, n + 4, s0, x, r, correct[12], correct[3], correct[10], correct[1],
      0x655b59c3, 0x8f0ccc92, 0xffeff47d, 0x85845dd1);
    r := FourFI(op, n + 8, s0, x, r, correct[8], correct[15], correct[6], correct[13],
      0x6fa87e4f, 0xfe2ce6e0, 0xa3014314, 0x4e0811a1);
    r := FourFI(op, n + 12, s0, x, r, correct[4], correct[11], correct[2], correct[9],
      0xf7537e82, 0xbd3af235, 0x2ad7d2bb, 0xeb86d391);
  }
}
