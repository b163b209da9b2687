/**
 The digests of RFC 1321, appendix A.5, for the empty message, for abc, and for the 62 letters and digits,
 which take two blocks.
 */
module Md5Vectors {
  import opened Md5Words
  import opened Md5Rounds
  import opened Md5Digest
  import opened Md5Stream
  import opened Md5Traces
  import opened Md5Runs

  // ---------- words and bytes ----------

  function LoadBits(b0: Byte, b1: Byte, b2: Byte, b3: Byte): bv32 {
    (b0 as bv32) | ((b1 as bv32) << 8) | ((b2 as bv32) << 16) | ((b3 as bv32) << 24)
  }

  predicate AreBytes(block: seq<Byte>, p: nat, b0: Byte, b1: Byte, b2: Byte, b3: Byte) {
    p + 4 <= |block| && block[p] == b0 && block[p + 1] == b1 && block[p + 2] == b2 && block[p + 3] == b3
  }

  lemma WordIs(block: seq<Byte>, i: nat, b0: Byte, b1: Byte, b2: Byte, b3: Byte, w: bv32)
    requires |block| == 64 && i < 16 && AreBytes(block, 4 * i, b0, b1, b2, b3) && LoadBits(b0, b1, b2, b3) == w
    ensures Words(block)[i] == Word(w)
  {
  }

  predicate SplitsInto(w: bv32, b0: Byte, b1: Byte, b2: Byte, b3: Byte) {
    (w & 0xff) as Byte == b0 && ((w >> 8) & 0xff) as Byte == b1 && ((w >> 16) & 0xff) as Byte == b2
    && (w >> 24) as Byte == b3
  }

  lemma BytesAre(w: bv32, b0: Byte, b1: Byte, b2: Byte, b3: Byte)
    requires SplitsInto(w, b0, b1, b2, b3)
    ensures Bytes(Word(w)) == [b0, b1, b2, b3]
  {
  }

  lemma LengthFrom(bytes: nat, low: Constant, high: Constant)
    requires low == 8 * bytes % 0x1_0000_0000 && high == 8 * bytes / 0x1_0000_0000 % 0x1_0000_0000
    ensures Length(bytes) == Bytes(WordOf(low)) + Bytes(WordOf(high))
  {
  }

  lemma WordsOfLengths()
    ensures Bytes(WordOf(0)) == [0, 0, 0, 0] && Bytes(WordOf(24)) == [0x18, 0, 0, 0]
    ensures Bytes(WordOf(496)) == [0xf0, 0x01, 0, 0]
  {
  }

  /** `pad` is the padding of RFC 1321; the proofs use this only where they name `Padded`. */
  ghost predicate IsPadding(pad: seq<Byte> -> seq<Byte>) {
    forall m: seq<Byte> {:trigger Padded(m)} :: pad(m) == Padded(m)
  }

  /** The bytes of a padded message. */
  lemma PaddedAt(pad: seq<Byte> -> seq<Byte>, m: seq<Byte>, l: seq<Byte>, z: nat, i: nat)
    requires IsPadding(pad) && l == Length(|m|) && z == (119 - |m| % 64) % 64 && i < |m| + 1 + z + 8
    ensures |pad(m)| == |m| + 1 + z + 8
    ensures pad(m)[i] == if i < |m| then m[i] else if i == |m| then 0x80
                         else if i <= |m| + z then 0 else l[i - |m| - 1 - z]
  {
    assert pad(m) == Padded(m) == m + Filler(|m|) + l;
  }

  // ---------- one block ----------

  /** `Op` and `ToBits` as values, so that a proof sees no more of them. */
  lemma Values() returns (op: Operation, bits: Constant -> bv32)
    ensures IsOp(op) && IsToBits(bits) && op == Op
  {
    op, bits := Op, ToBits;
  }

  /** One block, once its steps are done. */
  lemma CompressIs(op: Operation, s: Chain, block: seq<Byte>, a: bv32, b: bv32, c: bv32, d: bv32)
    requires |block| == 64 && Steps(op, 64, s, Words(block)) == ChainOf(a, b, c, d)
    ensures Compress(op, s, block) == AddChain(s, ChainOf(a, b, c, d))
  {
  }

  lemma FoldBlock(h: Compressor, s: Chain, block: seq<Byte>, rest: seq<Byte>)
    requires IsCompress(h) && |block| == 64
    ensures Fold(h, s, block + rest) == Fold(h, Compress(Op, s, block), rest)
  {
    assert (block + rest)[..64] == block && (block + rest)[64..] == rest;
    assert h(s, block) == Compress(Op, s, block);
  }

  /** The digest, once all blocks are done. */
  lemma DigestIs(h: Compressor, pad: seq<Byte> -> seq<Byte>, md5: seq<Byte> -> seq<Byte>, m: seq<Byte>, s: Chain)
    requires h == TheCompressor() && IsPadding(pad) && IsMd5(md5) && Fold(h, INITIAL, pad(m)) == s
    ensures md5(m) == Output(s)
  {
    assert md5(m) == Md5Of(m);
    assert pad(m) == Padded(m);
  }

  ghost predicate IsMd5(md5: seq<Byte> -> seq<Byte>) {
    forall m: seq<Byte> {:trigger Md5Of(m)} :: md5(m) == Md5Of(m)
  }

  lemma Functions() returns (pad: seq<Byte> -> seq<Byte>, md5: seq<Byte> -> seq<Byte>)
    ensures IsPadding(pad) && IsMd5(md5)
  {
    pad, md5 := Padded, Md5Of;
  }

  lemma OutputIs(a: bv32, b: bv32, c: bv32, d: bv32, r: seq<Byte>)
    requires |r| == 16 && SplitsInto(a, r[0], r[1], r[2], r[3]) && SplitsInto(b, r[4], r[5], r[6], r[7])
    requires SplitsInto(c, r[8], r[9], r[10], r[11]) && SplitsInto(d, r[12], r[13], r[14], r[15])
    ensures Output(ChainOf(a, b, c, d)) == r
  {
    BytesAre(a, r[0], r[1], r[2], r[3]);
    BytesAre(b, r[4], r[5], r[6], r[7]);
    BytesAre(c, r[8], r[9], r[10], r[11]);
    BytesAre(d, r[12], r[13], r[14], r[15]);
  }

  predicate Sums(a: bv32, b: bv32, c: bv32) {
    BitsAdd(a, b) == c
  }

  lemma ChainSum(a: bv32, b: bv32, c: bv32, d: bv32, e: bv32, f: bv32, g: bv32, h: bv32,
      i: bv32, j: bv32, k: bv32, l: bv32)
    requires Sums(e, a, i) && Sums(f, b, j) && Sums(g, c, k) && Sums(h, d, l)
    ensures AddChain(ChainOf(a, b, c, d), ChainOf(e, f, g, h)) == ChainOf(i, j, k, l)
  {
  }

  lemma InitialIs()
    ensures INITIAL == ChainOf(0x67452301, 0xefcdab89, 0x98badcfe, 0x10325476)
  {
  }

  // ---------- the empty message ----------

  const NOTHING: seq<Byte> := []

  lemma EmptyPadded(pad: seq<Byte> -> seq<Byte>)
    requires IsPadding(pad)
    ensures |pad(NOTHING)| == 64
    ensures forall i: nat :: i < 64 ==>
      pad(NOTHING)[i] == (if i == 0 then 0x80 else 0)
  {
    LengthFrom(0, 0, 0);
    WordsOfLengths();
    var l := Length(0);
    assert l == [0, 0, 0, 0, 0, 0, 0, 0];
    PaddedAt(pad, NOTHING, l, 55, 0);
    forall i: nat | i < 64
      ensures pad(NOTHING)[i] == (if i == 0 then 0x80 else 0)
    {
      PaddedAt(pad, NOTHING, l, 55, i);
    }
  }

  lemma EmptyBlock(block: seq<Byte>)
    requires |block| == 64
    requires AreBytes(block, 0, 0x80, 0, 0, 0) && AreBytes(block, 4, 0, 0, 0, 0)
    requires AreBytes(block, 8, 0, 0, 0, 0) && AreBytes(block, 12, 0, 0, 0, 0)
    requires AreBytes(block, 16, 0, 0, 0, 0) && AreBytes(block, 20, 0, 0, 0, 0)
    requires AreBytes(block, 24, 0, 0, 0, 0) && AreBytes(block, 28, 0, 0, 0, 0)
    requires AreBytes(block, 32, 0, 0, 0, 0) && AreBytes(block, 36, 0, 0, 0, 0)
    requires AreBytes(block, 40, 0, 0, 0, 0) && AreBytes(block, 44, 0, 0, 0, 0)
    requires AreBytes(block, 48, 0, 0, 0, 0) && AreBytes(block, 52, 0, 0, 0, 0)
    requires AreBytes(block, 56, 0, 0, 0, 0) && AreBytes(block, 60, 0, 0, 0, 0)
    ensures EmptyWords(Words(block))
  {
    WordIs(block, 0, 0x80, 0, 0, 0, 0x00000080);
    WordIs(block, 1, 0, 0, 0, 0, 0);
    WordIs(block, 2, 0, 0, 0, 0, 0);
    WordIs(block, 3, 0, 0, 0, 0, 0);
    WordIs(block, 4, 0, 0, 0, 0, 0);
    WordIs(block, 5, 0, 0, 0, 0, 0);
    WordIs(block, 6, 0, 0, 0, 0, 0);
    WordIs(block, 7, 0, 0, 0, 0, 0);
    WordIs(block, 8, 0, 0, 0, 0, 0);
    WordIs(block, 9, 0, 0, 0, 0, 0);
    WordIs(block, 10, 0, 0, 0, 0, 0);
    WordIs(block, 11, 0, 0, 0, 0, 0);
    WordIs(block, 12, 0, 0, 0, 0, 0);
    WordIs(block, 13, 0, 0, 0, 0, 0);
    WordIs(block, 14, 0, 0, 0, 0, 0);
    WordIs(block, 15, 0, 0, 0, 0, 0);
  }

  lemma EmptyCompressed(block: seq<Byte>)
    requires |block| == 64 && EmptyWords(Words(block))
    ensures Compress(Op, ChainOf(0x67452301, 0xefcdab89, 0x98badcfe, 0x10325476), block) ==
      ChainOf(0xd98c1dd4, 0x04b2008f, 0x980980e9, 0x7e42f8ec)
  {
    var s := ChainOf(0x67452301, 0xefcdab89, 0x98badcfe, 0x10325476);
    var op, bits := Values();
    EmptyRun(op, bits, s, Words(block));
    CompressIs(op, s, block, 0x7246fad3, 0x14e45506, 0xff4ea3eb, 0x6e10a476);
    ChainSum(0x67452301, 0xefcdab89, 0x98badcfe, 0x10325476,
        0x7246fad3, 0x14e45506, 0xff4ea3eb, 0x6e10a476,
        0xd98c1dd4, 0x04b2008f, 0x980980e9, 0x7e42f8ec);
  }

  lemma EmptyFold(pad: seq<Byte> -> seq<Byte>, h: Compressor)
    requires IsPadding(pad) && IsCompress(h)
    ensures Fold(h, INITIAL, pad(NOTHING)) == ChainOf(0xd98c1dd4, 0x04b2008f, 0x980980e9, 0x7e42f8ec)
  {
    EmptyPadded(pad);
    InitialIs();
    var all := pad(NOTHING);
    EmptyBlock(all[0..64]);
    EmptyCompressed(all[0..64]);
    assert all == all[0..64] + all[64..];
    FoldBlock(h, ChainOf(0x67452301, 0xefcdab89, 0x98badcfe, 0x10325476), all[0..64], all[64..]);
    FoldNothing(h, ChainOf(0xd98c1dd4, 0x04b2008f, 0x980980e9, 0x7e42f8ec));
  }

  /** MD5 of the empty message. */
  lemma EmptyDigest()
    ensures Md5Of(NOTHING) == [
      0xd4, 0x1d, 0x8c, 0xd9, 0x8f, 0x00, 0xb2, 0x04,
      0xe9, 0x80, 0x09, 0x98, 0xec, 0xf8, 0x42, 0x7e]
  {
    var pad, md5 := Functions();
    var h := TheCompressor();
    EmptyFold(pad, h);
    DigestIs(h, pad, md5, NOTHING, ChainOf(0xd98c1dd4, 0x04b2008f, 0x980980e9, 0x7e42f8ec));
    OutputIs(0xd98c1dd4, 0x04b2008f, 0x980980e9, 0x7e42f8ec, [
      0xd4, 0x1d, 0x8c, 0xd9, 0x8f, 0x00, 0xb2, 0x04,
      0xe9, 0x80, 0x09, 0x98, 0xec, 0xf8, 0x42, 0x7e]);
    assert md5(NOTHING) == Md5Of(NOTHING);
  }

  // ---------- abc ----------

  const ABC: seq<Byte> := [0x61, 0x62, 0x63]

  lemma AbcPadded(pad: seq<Byte> -> seq<Byte>)
    requires IsPadding(pad)
    ensures |pad(ABC)| == 64
    ensures forall i: nat :: i < 64 ==>
      pad(ABC)[i] == (if i == 0 then 0x61 else if i == 1 then 0x62 else if i == 2 then 0x63 else if i == 3 then 0x80
        else if i == 56 then 0x18 else 0)
  {
    LengthFrom(3, 24, 0);
    WordsOfLengths();
    var l := Length(3);
    assert l == [0x18, 0, 0, 0, 0, 0, 0, 0];
    PaddedAt(pad, ABC, l, 52, 0);
    forall i: nat | i < 64
      ensures pad(ABC)[i] == (if i == 0 then 0x61 else if i == 1 then 0x62 else if i == 2 then 0x63 else if i == 3 then 0x80
          else if i == 56 then 0x18 else 0)
    {
      PaddedAt(pad, ABC, l, 52, i);
    }
  }

  lemma AbcBlock(block: seq<Byte>)
    requires |block| == 64
    requires AreBytes(block, 0, 0x61, 0x62, 0x63, 0x80) && AreBytes(block, 4, 0, 0, 0, 0)
    requires AreBytes(block, 8, 0, 0, 0, 0) && AreBytes(block, 12, 0, 0, 0, 0)
    requires AreBytes(block, 16, 0, 0, 0, 0) && AreBytes(block, 20, 0, 0, 0, 0)
    requires AreBytes(block, 24, 0, 0, 0, 0) && AreBytes(block, 28, 0, 0, 0, 0)
    requires AreBytes(block, 32, 0, 0, 0, 0) && AreBytes(block, 36, 0, 0, 0, 0)
    requires AreBytes(block, 40, 0, 0, 0, 0) && AreBytes(block, 44, 0, 0, 0, 0)
    requires AreBytes(block, 48, 0, 0, 0, 0) && AreBytes(block, 52, 0, 0, 0, 0)
    requires AreBytes(block, 56, 0x18, 0, 0, 0) && AreBytes(block, 60, 0, 0, 0, 0)
    ensures AbcWords(Words(block))
  {
    WordIs(block, 0, 0x61, 0x62, 0x63, 0x80, 0x80636261);
    WordIs(block, 1, 0, 0, 0, 0, 0);
    WordIs(block, 2, 0, 0, 0, 0, 0);
    WordIs(block, 3, 0, 0, 0, 0, 0);
    WordIs(block, 4, 0, 0, 0, 0, 0);
    WordIs(block, 5, 0, 0, 0, 0, 0);
    WordIs(block, 6, 0, 0, 0, 0, 0);
    WordIs(block, 7, 0, 0, 0, 0, 0);
    WordIs(block, 8, 0, 0, 0, 0, 0);
    WordIs(block, 9, 0, 0, 0, 0, 0);
    WordIs(block, 10, 0, 0, 0, 0, 0);
    WordIs(block, 11, 0, 0, 0, 0, 0);
    WordIs(block, 12, 0, 0, 0, 0, 0);
    WordIs(block, 13, 0, 0, 0, 0, 0);
    WordIs(block, 14, 0x18, 0, 0, 0, 0x00000018);
    WordIs(block, 15, 0, 0, 0, 0, 0);
  }

  lemma AbcCompressed(block: seq<Byte>)
    requires |block| == 64 && AbcWords(Words(block))
    ensures Compress(Op, ChainOf(0x67452301, 0xefcdab89, 0x98badcfe, 0x10325476), block) ==
      ChainOf(0x98500190, 0xb04fd23c, 0x7d3f96d6, 0x727fe128)
  {
    var s := ChainOf(0x67452301, 0xefcdab89, 0x98badcfe, 0x10325476);
    var op, bits := Values();
    AbcRun(op, bits, s, Words(block));
    CompressIs(op, s, block, 0x310ade8f, 0xc08226b3, 0xe484b9d8, 0x624d8cb2);
    ChainSum(0x67452301, 0xefcdab89, 0x98badcfe, 0x10325476,
        0x310ade8f, 0xc08226b3, 0xe484b9d8, 0x624d8cb2,
        0x98500190, 0xb04fd23c, 0x7d3f96d6, 0x727fe128);
  }

  lemma AbcFold(pad: seq<Byte> -> seq<Byte>, h: Compressor)
    requires IsPadding(pad) && IsCompress(h)
    ensures Fold(h, INITIAL, pad(ABC)) == ChainOf(0x98500190, 0xb04fd23c, 0x7d3f96d6, 0x727fe128)
  {
    AbcPadded(pad);
    InitialIs();
    var all := pad(ABC);
    AbcBlock(all[0..64]);
    AbcCompressed(all[0..64]);
    assert all == all[0..64] + all[64..];
    FoldBlock(h, ChainOf(0x67452301, 0xefcdab89, 0x98badcfe, 0x10325476), all[0..64], all[64..]);
    FoldNothing(h, ChainOf(0x98500190, 0xb04fd23c, 0x7d3f96d6, 0x727fe128));
  }

  /** MD5 of "abc". */
  lemma AbcDigest()
    ensures Md5Of(ABC) == [
      0x90, 0x01, 0x50, 0x98, 0x3c, 0xd2, 0x4f, 0xb0,
      0xd6, 0x96, 0x3f, 0x7d, 0x28, 0xe1, 0x7f, 0x72]
  {
    var pad, md5 := Functions();
    var h := TheCompressor();
    AbcFold(pad, h);
    DigestIs(h, pad, md5, ABC, ChainOf(0x98500190, 0xb04fd23c, 0x7d3f96d6, 0x727fe128));
    OutputIs(0x98500190, 0xb04fd23c, 0x7d3f96d6, 0x727fe128, [
      0x90, 0x01, 0x50, 0x98, 0x3c, 0xd2, 0x4f, 0xb0,
      0xd6, 0x96, 0x3f, 0x7d, 0x28, 0xe1, 0x7f, 0x72]);
    assert md5(ABC) == Md5Of(ABC);
  }

  // ---------- letters and digits ----------

  const LETTERS_AND_DIGITS: seq<Byte> :=
    [0x41, 0x42, 0x43, 0x44, 0x45, 0x46, 0x47, 0x48] +
    [0x49, 0x4a, 0x4b, 0x4c, 0x4d, 0x4e, 0x4f, 0x50] +
    [0x51, 0x52, 0x53, 0x54, 0x55, 0x56, 0x57, 0x58] +
    [0x59, 0x5a, 0x61, 0x62, 0x63, 0x64, 0x65, 0x66] +
    [0x67, 0x68, 0x69, 0x6a, 0x6b, 0x6c, 0x6d, 0x6e] +
    [0x6f, 0x70, 0x71, 0x72, 0x73, 0x74, 0x75, 0x76] +
    [0x77, 0x78, 0x79, 0x7a, 0x30, 0x31, 0x32, 0x33] +
    [0x34, 0x35, 0x36, 0x37, 0x38, 0x39]

  lemma Letters(block: seq<Byte>)
    requires |block| == 64 && forall i: nat :: i < 62 ==> block[i] == LETTERS_AND_DIGITS[i]
    ensures AreBytes(block, 0, 0x41, 0x42, 0x43, 0x44)
    ensures AreBytes(block, 4, 0x45, 0x46, 0x47, 0x48)
    ensures AreBytes(block, 8, 0x49, 0x4a, 0x4b, 0x4c)
    ensures AreBytes(block, 12, 0x4d, 0x4e, 0x4f, 0x50)
    ensures AreBytes(block, 16, 0x51, 0x52, 0x53, 0x54)
    ensures AreBytes(block, 20, 0x55, 0x56, 0x57, 0x58)
    ensures AreBytes(block, 24, 0x59, 0x5a, 0x61, 0x62)
    ensures AreBytes(block, 28, 0x63, 0x64, 0x65, 0x66)
    ensures AreBytes(block, 32, 0x67, 0x68, 0x69, 0x6a)
    ensures AreBytes(block, 36, 0x6b, 0x6c, 0x6d, 0x6e)
    ensures AreBytes(block, 40, 0x6f, 0x70, 0x71, 0x72)
    ensures AreBytes(block, 44, 0x73, 0x74, 0x75, 0x76)
    ensures AreBytes(block, 48, 0x77, 0x78, 0x79, 0x7a)
    ensures AreBytes(block, 52, 0x30, 0x31, 0x32, 0x33)
    ensures AreBytes(block, 56, 0x34, 0x35, 0x36, 0x37)
    ensures block[60] == 0x38 && block[61] == 0x39
  {
  }

  lemma LongPadded(pad: seq<Byte> -> seq<Byte>)
    requires IsPadding(pad)
    ensures |pad(LETTERS_AND_DIGITS)| == 128
    ensures forall i: nat :: i < 128 ==>
      pad(LETTERS_AND_DIGITS)[i] == (if i < 62 then LETTERS_AND_DIGITS[i] else if i == 62 then 0x80
        else if i == 120 then 0xf0 else if i == 121 then 0x01 else 0)
  {
    LengthFrom(62, 496, 0);
    WordsOfLengths();
    var l := Length(62);
    assert l == [0xf0, 0x01, 0, 0, 0, 0, 0, 0];
    PaddedAt(pad, LETTERS_AND_DIGITS, l, 57, 0);
    forall i: nat | i < 128
      ensures pad(LETTERS_AND_DIGITS)[i] == (if i < 62 then LETTERS_AND_DIGITS[i] else if i == 62 then 0x80
          else if i == 120 then 0xf0 else if i == 121 then 0x01 else 0)
    {
      PaddedAt(pad, LETTERS_AND_DIGITS, l, 57, i);
    }
  }

  lemma Long1Block(block: seq<Byte>)
    requires |block| == 64
    requires AreBytes(block, 0, 0x41, 0x42, 0x43, 0x44) && AreBytes(block, 4, 0x45, 0x46, 0x47, 0x48)
    requires AreBytes(block, 8, 0x49, 0x4a, 0x4b, 0x4c) && AreBytes(block, 12, 0x4d, 0x4e, 0x4f, 0x50)
    requires AreBytes(block, 16, 0x51, 0x52, 0x53, 0x54) && AreBytes(block, 20, 0x55, 0x56, 0x57, 0x58)
    requires AreBytes(block, 24, 0x59, 0x5a, 0x61, 0x62) && AreBytes(block, 28, 0x63, 0x64, 0x65, 0x66)
    requires AreBytes(block, 32, 0x67, 0x68, 0x69, 0x6a) && AreBytes(block, 36, 0x6b, 0x6c, 0x6d, 0x6e)
    requires AreBytes(block, 40, 0x6f, 0x70, 0x71, 0x72) && AreBytes(block, 44, 0x73, 0x74, 0x75, 0x76)
    requires AreBytes(block, 48, 0x77, 0x78, 0x79, 0x7a) && AreBytes(block, 52, 0x30, 0x31, 0x32, 0x33)
    requires AreBytes(block, 56, 0x34, 0x35, 0x36, 0x37) && AreBytes(block, 60, 0x38, 0x39, 0x80, 0)
    ensures Long1Words(Words(block))
  {
    WordIs(block, 0, 0x41, 0x42, 0x43, 0x44, 0x44434241);
    WordIs(block, 1, 0x45, 0x46, 0x47, 0x48, 0x48474645);
    WordIs(block, 2, 0x49, 0x4a, 0x4b, 0x4c, 0x4c4b4a49);
    WordIs(block, 3, 0x4d, 0x4e, 0x4f, 0x50, 0x504f4e4d);
    WordIs(block, 4, 0x51, 0x52, 0x53, 0x54, 0x54535251);
    WordIs(block, 5, 0x55, 0x56, 0x57, 0x58, 0x58575655);
    WordIs(block, 6, 0x59, 0x5a, 0x61, 0x62, 0x62615a59);
    WordIs(block, 7, 0x63, 0x64, 0x65, 0x66, 0x66656463);
    WordIs(block, 8, 0x67, 0x68, 0x69, 0x6a, 0x6a696867);
    WordIs(block, 9, 0x6b, 0x6c, 0x6d, 0x6e, 0x6e6d6c6b);
    WordIs(block, 10, 0x6f, 0x70, 0x71, 0x72, 0x7271706f);
    WordIs(block, 11, 0x73, 0x74, 0x75, 0x76, 0x76757473);
    WordIs(block, 12, 0x77, 0x78, 0x79, 0x7a, 0x7a797877);
    WordIs(block, 13, 0x30, 0x31, 0x32, 0x33, 0x33323130);
    WordIs(block, 14, 0x34, 0x35, 0x36, 0x37, 0x37363534);
    WordIs(block, 15, 0x38, 0x39, 0x80, 0, 0x00803938);
  }

  lemma Long1Compressed(block: seq<Byte>)
    requires |block| == 64 && Long1Words(Words(block))
    ensures Compress(Op, ChainOf(0x67452301, 0xefcdab89, 0x98badcfe, 0x10325476), block) ==
      ChainOf(0x83fd320b, 0xdefbe5cf, 0xa9b1642f, 0xfa6f932a)
  {
    var s := ChainOf(0x67452301, 0xefcdab89, 0x98badcfe, 0x10325476);
    var op, bits := Values();
    Long1Run(op, bits, s, Words(block));
    CompressIs(op, s, block, 0x1cb80f0a, 0xef2e3a46, 0x10f68731, 0xea3d3eb4);
    ChainSum(0x67452301, 0xefcdab89, 0x98badcfe, 0x10325476,
        0x1cb80f0a, 0xef2e3a46, 0x10f68731, 0xea3d3eb4,
        0x83fd320b, 0xdefbe5cf, 0xa9b1642f, 0xfa6f932a);
  }

  lemma Long2Block(block: seq<Byte>)
    requires |block| == 64
    requires AreBytes(block, 0, 0, 0, 0, 0) && AreBytes(block, 4, 0, 0, 0, 0)
    requires AreBytes(block, 8, 0, 0, 0, 0) && AreBytes(block, 12, 0, 0, 0, 0)
    requires AreBytes(block, 16, 0, 0, 0, 0) && AreBytes(block, 20, 0, 0, 0, 0)
    requires AreBytes(block, 24, 0, 0, 0, 0) && AreBytes(block, 28, 0, 0, 0, 0)
    requires AreBytes(block, 32, 0, 0, 0, 0) && AreBytes(block, 36, 0, 0, 0, 0)
    requires AreBytes(block, 40, 0, 0, 0, 0) && AreBytes(block, 44, 0, 0, 0, 0)
    requires AreBytes(block, 48, 0, 0, 0, 0) && AreBytes(block, 52, 0, 0, 0, 0)
    requires AreBytes(block, 56, 0xf0, 0x01, 0, 0) && AreBytes(block, 60, 0, 0, 0, 0)
    ensures Long2Words(Words(block))
  {
    WordIs(block, 0, 0, 0, 0, 0, 0);
    WordIs(block, 1, 0, 0, 0, 0, 0);
    WordIs(block, 2, 0, 0, 0, 0, 0);
    WordIs(block, 3, 0, 0, 0, 0, 0);
    WordIs(block, 4, 0, 0, 0, 0, 0);
    WordIs(block, 5, 0, 0, 0, 0, 0);
    WordIs(block, 6, 0, 0, 0, 0, 0);
    WordIs(block, 7, 0, 0, 0, 0, 0);
    WordIs(block, 8, 0, 0, 0, 0, 0);
    WordIs(block, 9, 0, 0, 0, 0, 0);
    WordIs(block, 10, 0, 0, 0, 0, 0);
    WordIs(block, 11, 0, 0, 0, 0, 0);
    WordIs(block, 12, 0, 0, 0, 0, 0);
    WordIs(block, 13, 0, 0, 0, 0, 0);
    WordIs(block, 14, 0xf0, 0x01, 0, 0, 0x000001f0);
    WordIs(block, 15, 0, 0, 0, 0, 0);
  }

  lemma Long2Compressed(block: seq<Byte>)
    requires |block| == 64 && Long2Words(Words(block))
    ensures Compress(Op, ChainOf(0x83fd320b, 0xdefbe5cf, 0xa9b1642f, 0xfa6f932a), block) ==
      ChainOf(0x98ab74d1, 0xf5d977d2, 0x2c1c61a5, 0x9f9d419f)
  {
    var s := ChainOf(0x83fd320b, 0xdefbe5cf, 0xa9b1642f, 0xfa6f932a);
    var op, bits := Values();
    Long2Run(op, bits, s, Words(block));
    CompressIs(op, s, block, 0x14ae42c6, 0x16dd9203, 0x826afd76, 0xa52dae75);
    ChainSum(0x83fd320b, 0xdefbe5cf, 0xa9b1642f, 0xfa6f932a,
        0x14ae42c6, 0x16dd9203, 0x826afd76, 0xa52dae75,
        0x98ab74d1, 0xf5d977d2, 0x2c1c61a5, 0x9f9d419f);
  }

  lemma LongFold(pad: seq<Byte> -> seq<Byte>, h: Compressor)
    requires IsPadding(pad) && IsCompress(h)
    ensures Fold(h, INITIAL, pad(LETTERS_AND_DIGITS)) == ChainOf(0x98ab74d1, 0xf5d977d2, 0x2c1c61a5, 0x9f9d419f)
  {
    LongPadded(pad);
    InitialIs();
    var all := pad(LETTERS_AND_DIGITS);
    Letters(all[0..64]);
    Long1Block(all[0..64]);
    Long1Compressed(all[0..64]);
    assert all == all[0..64] + all[64..];
    FoldBlock(h, ChainOf(0x67452301, 0xefcdab89, 0x98badcfe, 0x10325476), all[0..64], all[64..]);
    Long2Block(all[64..128]);
    Long2Compressed(all[64..128]);
    assert all[64..] == all[64..128] + all[128..];
    FoldBlock(h, ChainOf(0x83fd320b, 0xdefbe5cf, 0xa9b1642f, 0xfa6f932a), all[64..128], all[128..]);
    FoldNothing(h, ChainOf(0x98ab74d1, 0xf5d977d2, 0x2c1c61a5, 0x9f9d419f));
  }

  /** MD5 of "ABCDEFGHIJKLMNOPQRSTUVWXYZabcdefghijklmnopqrstuvwxyz0123456789". */
  lemma LongDigest()
    ensures Md5Of(LETTERS_AND_DIGITS) == [
      0xd1, 0x74, 0xab, 0x98, 0xd2, 0x77, 0xd9, 0xf5,
      0xa5, 0x61, 0x1c, 0x2c, 0x9f, 0x41, 0x9d, 0x9f]
  {
    var pad, md5 := Functions();
    var h := TheCompressor();
    LongFold(pad, h);
    DigestIs(h, pad, md5, LETTERS_AND_DIGITS, ChainOf(0x98ab74d1, 0xf5d977d2, 0x2c1c61a5, 0x9f9d419f));
    OutputIs(0x98ab74d1, 0xf5d977d2, 0x2c1c61a5, 0x9f9d419f, [
      0xd1, 0x74, 0xab, 0x98, 0xd2, 0x77, 0xd9, 0xf5,
      0xa5, 0x61, 0x1c, 0x2c, 0x9f, 0x41, 0x9d, 0x9f]);
    assert md5(LETTERS_AND_DIGITS) == Md5Of(LETTERS_AND_DIGITS);
  }
}
