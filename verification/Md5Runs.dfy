/**
 The 64-step loop on the blocks of three messages of RFC 1321, appendix A.5, four steps at a time: the
 words a, b, c, d before and after are written out.
 */
module Md5Runs {
  import opened Md5Words
  import opened Md5Rounds
  import opened Md5Traces

  // ---------- the empty message ----------

  predicate EmptyWords(x: seq<Word>) {
    AreWords(x, 0x00000080, 0, 0, 0, 0, 0, 0, 0, 0, 0, 0, 0, 0, 0, 0, 0)
  }

  lemma EmptyFrom0(op: Operation, bits: Constant -> bv32, s: Chain, x: seq<Word>)
    requires IsOp(op) && IsToBits(bits) && EmptyWords(x)
    requires Steps(op, 0, s, x) == ChainOf(0x67452301, 0xefcdab89, 0x98badcfe, 0x10325476)
    ensures Steps(op, 4, s, x) == ChainOf(0xa5202774, 0x1b163203, 0xe7f06b23, 0xf59592dd)
  {
    Bits0(bits);
    Four(op, bits, s, x, 0, 0x67452301, 0xefcdab89, 0x98badcfe, 0x10325476, 0x00000080, 0, 0, 0,
        7, 12, 17, 22, 0xd76aa478, 0xe8c7b756, 0x242070db, 0xc1bdceee, 0xa5202774, 0x1b163203, 0xe7f06b23, 0xf59592dd);
  }

  lemma EmptyFrom4(op: Operation, bits: Constant -> bv32, s: Chain, x: seq<Word>)
    requires IsOp(op) && IsToBits(bits) && EmptyWords(x)
    requires Steps(op, 4, s, x) == ChainOf(0xa5202774, 0x1b163203, 0xe7f06b23, 0xf59592dd)
    ensures Steps(op, 8, s, x) == ChainOf(0x32033344, 0x9bc13ce9, 0xf5b158db, 0x2f35d494)
  {
    Bits1(bits);
    Four(op, bits, s, x, 4, 0xa5202774, 0x1b163203, 0xe7f06b23, 0xf59592dd, 0, 0, 0, 0,
        7, 12, 17, 22, 0xf57c0faf, 0x4787c62a, 0xa8304613, 0xfd469501, 0x32033344, 0x9bc13ce9, 0xf5b158db, 0x2f35d494);
  }

  lemma EmptyFrom8(op: Operation, bits: Constant -> bv32, s: Chain, x: seq<Word>)
    requires IsOp(op) && IsToBits(bits) && EmptyWords(x)
    requires Steps(op, 8, s, x) == ChainOf(0x32033344, 0x9bc13ce9, 0xf5b158db, 0x2f35d494)
    ensures Steps(op, 12, s, x) == ChainOf(0x3893b991, 0x70768a29, 0xe1ef0576, 0xfce4a312)
  {
    Bits2(bits);
    Four(op, bits, s, x, 8, 0x32033344, 0x9bc13ce9, 0xf5b158db, 0x2f35d494, 0, 0, 0, 0,
        7, 12, 17, 22, 0x698098d8, 0x8b44f7af, 0xffff5bb1, 0x895cd7be, 0x3893b991, 0x70768a29, 0xe1ef0576, 0xfce4a312);
  }

  lemma EmptyFrom12(op: Operation, bits: Constant -> bv32, s: Chain, x: seq<Word>)
    requires IsOp(op) && IsToBits(bits) && EmptyWords(x)
    requires Steps(op, 12, s, x) == ChainOf(0x3893b991, 0x70768a29, 0xe1ef0576, 0xfce4a312)
    ensures Steps(op, 16, s, x) == ChainOf(0xf56c7cf1, 0xd6819c6a, 0x5aa53f75, 0x374943a7)
  {
    Bits3(bits);
    Four(op, bits, s, x, 12, 0x3893b991, 0x70768a29, 0xe1ef0576, 0xfce4a312, 0, 0, 0, 0,
        7, 12, 17, 22, 0x6b901122, 0xfd987193, 0xa679438e, 0x49b40821, 0xf56c7cf1, 0xd6819c6a, 0x5aa53f75, 0x374943a7);
  }

  lemma EmptyFrom16(op: Operation, bits: Constant -> bv32, s: Chain, x: seq<Word>)
    requires IsOp(op) && IsToBits(bits) && EmptyWords(x)
    requires Steps(op, 16, s, x) == ChainOf(0xf56c7cf1, 0xd6819c6a, 0x5aa53f75, 0x374943a7)
    ensures Steps(op, 20, s, x) == ChainOf(0x1c7d7513, 0xbd782e17, 0xc095f13a, 0x7bd57a3a)
  {
    Bits4(bits);
    Four(op, bits, s, x, 16, 0xf56c7cf1, 0xd6819c6a, 0x5aa53f75, 0x374943a7, 0, 0, 0, 0x00000080,
        5, 9, 14, 20, 0xf61e2562, 0xc040b340, 0x265e5a51, 0xe9b6c7aa, 0x1c7d7513, 0xbd782e17, 0xc095f13a, 0x7bd57a3a);
  }

  lemma EmptyFrom20(op: Operation, bits: Constant -> bv32, s: Chain, x: seq<Word>)
    requires IsOp(op) && IsToBits(bits) && EmptyWords(x)
    requires Steps(op, 20, s, x) == ChainOf(0x1c7d7513, 0xbd782e17, 0xc095f13a, 0x7bd57a3a)
    ensures Steps(op, 24, s, x) == ChainOf(0x3d1e3e6c, 0xe422531a, 0xeb41643e, 0x68b7b3e3)
  {
    Bits5(bits);
    Four(op, bits, s, x, 20, 0x1c7d7513, 0xbd782e17, 0xc095f13a, 0x7bd57a3a, 0, 0, 0, 0,
        5, 9, 14, 20, 0xd62f105d, 0x02441453, 0xd8a1e681, 0xe7d3fbc8, 0x3d1e3e6c, 0xe422531a, 0xeb41643e, 0x68b7b3e3);
  }

  lemma EmptyFrom24(op: Operation, bits: Constant -> bv32, s: Chain, x: seq<Word>)
    requires IsOp(op) && IsToBits(bits) && EmptyWords(x)
    requires Steps(op, 24, s, x) == ChainOf(0x3d1e3e6c, 0xe422531a, 0xeb41643e, 0x68b7b3e3)
    ensures Steps(op, 28, s, x) == ChainOf(0x306ec122, 0xa0572807, 0xa3c663da, 0xd28c77c2)
  {
    Bits6(bits);
    Four(op, bits, s, x, 24, 0x3d1e3e6c, 0xe422531a, 0xeb41643e, 0x68b7b3e3, 0, 0, 0, 0,
        5, 9, 14, 20, 0x21e1cde6, 0xc33707d6, 0xf4d50d87, 0x455a14ed, 0x306ec122, 0xa0572807, 0xa3c663da, 0xd28c77c2);
  }

  lemma EmptyFrom28(op: Operation, bits: Constant -> bv32, s: Chain, x: seq<Word>)
    requires IsOp(op) && IsToBits(bits) && EmptyWords(x)
    requires Steps(op, 28, s, x) == ChainOf(0x306ec122, 0xa0572807, 0xa3c663da, 0xd28c77c2)
    ensures Steps(op, 32, s, x) == ChainOf(0x13707036, 0xa2205f1f, 0x1c31c384, 0xae7813db)
  {
    Bits7(bits);
    Four(op, bits, s, x, 28, 0x306ec122, 0xa0572807, 0xa3c663da, 0xd28c77c2, 0, 0, 0, 0,
        5, 9, 14, 20, 0xa9e3e905, 0xfcefa3f8, 0x676f02d9, 0x8d2a4c8a, 0x13707036, 0xa2205f1f, 0x1c31c384, 0xae7813db);
  }

  lemma EmptyFrom32(op: Operation, bits: Constant -> bv32, s: Chain, x: seq<Word>)
    requires IsOp(op) && IsToBits(bits) && EmptyWords(x)
    requires Steps(op, 32, s, x) == ChainOf(0x13707036, 0xa2205f1f, 0x1c31c384, 0xae7813db)
    ensures Steps(op, 36, s, x) == ChainOf(0xdf63eaa1, 0x004b6669, 0x12f3e755, 0xc3689f5b)
  {
    Bits8(bits);
    Four(op, bits, s, x, 32, 0x13707036, 0xa2205f1f, 0x1c31c384, 0xae7813db, 0, 0, 0, 0,
        4, 11, 16, 23, 0xfffa3942, 0x8771f681, 0x6d9d6122, 0xfde5380c, 0xdf63eaa1, 0x004b6669, 0x12f3e755, 0xc3689f5b);
  }

  lemma EmptyFrom36(op: Operation, bits: Constant -> bv32, s: Chain, x: seq<Word>)
    requires IsOp(op) && IsToBits(bits) && EmptyWords(x)
    requires Steps(op, 36, s, x) == ChainOf(0xdf63eaa1, 0x004b6669, 0x12f3e755, 0xc3689f5b)
    ensures Steps(op, 40, s, x) == ChainOf(0x5f7a9b2e, 0xc5dc8c15, 0x91ca4cb7, 0xabc34e16)
  {
    Bits9(bits);
    Four(op, bits, s, x, 36, 0xdf63eaa1, 0x004b6669, 0x12f3e755, 0xc3689f5b, 0, 0, 0, 0,
        4, 11, 16, 23, 0xa4beea44, 0x4bdecfa9, 0xf6bb4b60, 0xbebfbc70, 0x5f7a9b2e, 0xc5dc8c15, 0x91ca4cb7, 0xabc34e16);
  }

  lemma EmptyFrom40(op: Operation, bits: Constant -> bv32, s: Chain, x: seq<Word>)
    requires IsOp(op) && IsToBits(bits) && EmptyWords(x)
    requires Steps(op, 40, s, x) == ChainOf(0x5f7a9b2e, 0xc5dc8c15, 0x91ca4cb7, 0xabc34e16)
    ensures Steps(op, 44, s, x) == ChainOf(0x4497169d, 0x0fe32453, 0xfd95f243, 0x76fd93d4)
  {
    Bits10(bits);
    Four(op, bits, s, x, 40, 0x5f7a9b2e, 0xc5dc8c15, 0x91ca4cb7, 0xabc34e16, 0, 0x00000080, 0, 0,
        4, 11, 16, 23, 0x289b7ec6, 0xeaa127fa, 0xd4ef3085, 0x04881d05, 0x4497169d, 0x0fe32453, 0xfd95f243, 0x76fd93d4);
  }

  lemma EmptyFrom44(op: Operation, bits: Constant -> bv32, s: Chain, x: seq<Word>)
    requires IsOp(op) && IsToBits(bits) && EmptyWords(x)
    requires Steps(op, 44, s, x) == ChainOf(0x4497169d, 0x0fe32453, 0xfd95f243, 0x76fd93d4)
    ensures Steps(op, 48, s, x) == ChainOf(0x3f55edfd, 0xca7d2dbd, 0x68d84ea2, 0x22a31f54)
  {
    Bits11(bits);
    Four(op, bits, s, x, 44, 0x4497169d, 0x0fe32453, 0xfd95f243, 0x76fd93d4, 0, 0, 0, 0,
        4, 11, 16, 23, 0xd9d4d039, 0xe6db99e5, 0x1fa27cf8, 0xc4ac5665, 0x3f55edfd, 0xca7d2dbd, 0x68d84ea2, 0x22a31f54);
  }

  lemma EmptyFrom48(op: Operation, bits: Constant -> bv32, s: Chain, x: seq<Word>)
    requires IsOp(op) && IsToBits(bits) && EmptyWords(x)
    requires Steps(op, 48, s, x) == ChainOf(0x3f55edfd, 0xca7d2dbd, 0x68d84ea2, 0x22a31f54)
    ensures Steps(op, 52, s, x) == ChainOf(0x93aa2577, 0x561e0689, 0xcd85b8cb, 0x1688dc85)
  {
    Bits12(bits);
    Four(op, bits, s, x, 48, 0x3f55edfd, 0xca7d2dbd, 0x68d84ea2, 0x22a31f54, 0x00000080, 0, 0, 0,
        6, 10, 15, 21, 0xf4292244, 0x432aff97, 0xab9423a7, 0xfc93a039, 0x93aa2577, 0x561e0689, 0xcd85b8cb, 0x1688dc85);
  }

  lemma EmptyFrom52(op: Operation, bits: Constant -> bv32, s: Chain, x: seq<Word>)
    requires IsOp(op) && IsToBits(bits) && EmptyWords(x)
    requires Steps(op, 52, s, x) == ChainOf(0x93aa2577, 0x561e0689, 0xcd85b8cb, 0x1688dc85)
    ensures Steps(op, 56, s, x) == ChainOf(0x5625a114, 0x1e77fa61, 0x392ad0d0, 0x3450f42b)
  {
    Bits13(bits);
    Four(op, bits, s, x, 52, 0x93aa2577, 0x561e0689, 0xcd85b8cb, 0x1688dc85, 0, 0, 0, 0,
        6, 10, 15, 21, 0x655b59c3, 0x8f0ccc92, 0xffeff47d, 0x85845dd1, 0x5625a114, 0x1e77fa61, 0x392ad0d0, 0x3450f42b);
  }

  lemma EmptyFrom56(op: Operation, bits: Constant -> bv32, s: Chain, x: seq<Word>)
    requires IsOp(op) && IsToBits(bits) && EmptyWords(x)
    requires Steps(op, 56, s, x) == ChainOf(0x5625a114, 0x1e77fa61, 0x392ad0d0, 0x3450f42b)
    ensures Steps(op, 60, s, x) == ChainOf(0x474a9c8c, 0x30130182, 0x36594b14, 0xdfce00bc)
  {
    Bits14(bits);
    Four(op, bits, s, x, 56, 0x5625a114, 0x1e77fa61, 0x392ad0d0, 0x3450f42b, 0, 0, 0, 0,
        6, 10, 15, 21, 0x6fa87e4f, 0xfe2ce6e0, 0xa3014314, 0x4e0811a1, 0x474a9c8c, 0x30130182, 0x36594b14, 0xdfce00bc);
  }

  lemma EmptyFrom60(op: Operation, bits: Constant -> bv32, s: Chain, x: seq<Word>)
    requires IsOp(op) && IsToBits(bits) && EmptyWords(x)
    requires Steps(op, 60, s, x) == ChainOf(0x474a9c8c, 0x30130182, 0x36594b14, 0xdfce00bc)
    ensures Steps(op, 64, s, x) == ChainOf(0x7246fad3, 0x14e45506, 0xff4ea3eb, 0x6e10a476)
  {
    Bits15(bits);
    Four(op, bits, s, x, 60, 0x474a9c8c, 0x30130182, 0x36594b14, 0xdfce00bc, 0, 0, 0, 0,
        6, 10, 15, 21, 0xf7537e82, 0xbd3af235, 0x2ad7d2bb, 0xeb86d391, 0x7246fad3, 0x14e45506, 0xff4ea3eb, 0x6e10a476);
  }

  /** All steps on this block. */
  lemma EmptyRun(op: Operation, bits: Constant -> bv32, s: Chain, x: seq<Word>)
    requires IsOp(op) && IsToBits(bits) && EmptyWords(x)
    requires s == ChainOf(0x67452301, 0xefcdab89, 0x98badcfe, 0x10325476)
    ensures Steps(op, 64, s, x) == ChainOf(0x7246fad3, 0x14e45506, 0xff4ea3eb, 0x6e10a476)
  {
    EmptyFrom0(op, bits, s, x);
    EmptyFrom4(op, bits, s, x);
    EmptyFrom8(op, bits, s, x);
    EmptyFrom12(op, bits, s, x);
    EmptyFrom16(op, bits, s, x);
    EmptyFrom20(op, bits, s, x);
    EmptyFrom24(op, bits, s, x);
    EmptyFrom28(op, bits, s, x);
    EmptyFrom32(op, bits, s, x);
    EmptyFrom36(op, bits, s, x);
    EmptyFrom40(op, bits, s, x);
    EmptyFrom44(op, bits, s, x);
    EmptyFrom48(op, bits, s, x);
    EmptyFrom52(op, bits, s, x);
    EmptyFrom56(op, bits, s, x);
    EmptyFrom60(op, bits, s, x);
  }

  // ---------- the message abc ----------

  predicate AbcWords(x: seq<Word>) {
    AreWords(x, 0x80636261, 0, 0, 0, 0, 0, 0, 0, 0, 0, 0, 0, 0, 0, 0x00000018, 0)
  }

  lemma AbcFrom0(op: Operation, bits: Constant -> bv32, s: Chain, x: seq<Word>)
    requires IsOp(op) && IsToBits(bits) && AbcWords(x)
    requires Steps(op, 0, s, x) == ChainOf(0x67452301, 0xefcdab89, 0x98badcfe, 0x10325476)
    ensures Steps(op, 4, s, x) == ChainOf(0xd6d117b4, 0x7ad956f2, 0x2f6fbd72, 0x344a8432)
  {
    Bits0(bits);
    Four(op, bits, s, x, 0, 0x67452301, 0xefcdab89, 0x98badcfe, 0x10325476, 0x80636261, 0, 0, 0,
        7, 12, 17, 22, 0xd76aa478, 0xe8c7b756, 0x242070db, 0xc1bdceee, 0xd6d117b4, 0x7ad956f2, 0x2f6fbd72, 0x344a8432);
  }

  lemma AbcFrom4(op: Operation, bits: Constant -> bv32, s: Chain, x: seq<Word>)
    requires IsOp(op) && IsToBits(bits) && AbcWords(x)
    requires Steps(op, 4, s, x) == ChainOf(0xd6d117b4, 0x7ad956f2, 0x2f6fbd72, 0x344a8432)
    ensures Steps(op, 8, s, x) == ChainOf(0xc73741ef, 0x928d99f6, 0x207dc67b, 0x8bac3051)
  {
    Bits1(bits);
    Four(op, bits, s, x, 4, 0xd6d117b4, 0x7ad956f2, 0x2f6fbd72, 0x344a8432, 0, 0, 0, 0,
        7, 12, 17, 22, 0xf57c0faf, 0x4787c62a, 0xa8304613, 0xfd469501, 0xc73741ef, 0x928d99f6, 0x207dc67b, 0x8bac3051);
  }

  lemma AbcFrom8(op: Operation, bits: Constant -> bv32, s: Chain, x: seq<Word>)
    requires IsOp(op) && IsToBits(bits) && AbcWords(x)
    requires Steps(op, 8, s, x) == ChainOf(0xc73741ef, 0x928d99f6, 0x207dc67b, 0x8bac3051)
    ensures Steps(op, 12, s, x) == ChainOf(0x854b3712, 0x5ed49596, 0x3020401c, 0x74e2f284)
  {
    Bits2(bits);
    Four(op, bits, s, x, 8, 0xc73741ef, 0x928d99f6, 0x207dc67b, 0x8bac3051, 0, 0, 0, 0,
        7, 12, 17, 22, 0x698098d8, 0x8b44f7af, 0xffff5bb1, 0x895cd7be, 0x854b3712, 0x5ed49596, 0x3020401c, 0x74e2f284);
  }

  lemma AbcFrom12(op: Operation, bits: Constant -> bv32, s: Chain, x: seq<Word>)
    requires IsOp(op) && IsToBits(bits) && AbcWords(x)
    requires Steps(op, 12, s, x) == ChainOf(0x854b3712, 0x5ed49596, 0x3020401c, 0x74e2f284)
    ensures Steps(op, 16, s, x) == ChainOf(0xdda9b9a6, 0x72aff2e0, 0xe396856b, 0xa1051895)
  {
    Bits3(bits);
    Four(op, bits, s, x, 12, 0x854b3712, 0x5ed49596, 0x3020401c, 0x74e2f284, 0, 0, 0x00000018, 0,
        7, 12, 17, 22, 0x6b901122, 0xfd987193, 0xa679438e, 0x49b40821, 0xdda9b9a6, 0x72aff2e0, 0xe396856b, 0xa1051895);
  }

  lemma AbcFrom16(op: Operation, bits: Constant -> bv32, s: Chain, x: seq<Word>)
    requires IsOp(op) && IsToBits(bits) && AbcWords(x)
    requires Steps(op, 16, s, x) == ChainOf(0xdda9b9a6, 0x72aff2e0, 0xe396856b, 0xa1051895)
    ensures Steps(op, 20, s, x) == ChainOf(0x3e9e9126, 0xb5b204e4, 0xe25e1652, 0x4a1d804e)
  {
    Bits4(bits);
    Four(op, bits, s, x, 16, 0xdda9b9a6, 0x72aff2e0, 0xe396856b, 0xa1051895, 0, 0, 0, 0x80636261,
        5, 9, 14, 20, 0xf61e2562, 0xc040b340, 0x265e5a51, 0xe9b6c7aa, 0x3e9e9126, 0xb5b204e4, 0xe25e1652, 0x4a1d804e);
  }

  lemma AbcFrom20(op: Operation, bits: Constant -> bv32, s: Chain, x: seq<Word>)
    requires IsOp(op) && IsToBits(bits) && AbcWords(x)
    requires Steps(op, 20, s, x) == ChainOf(0x3e9e9126, 0xb5b204e4, 0xe25e1652, 0x4a1d804e)
    ensures Steps(op, 24, s, x) == ChainOf(0x59a8ffda, 0x47092c07, 0xabfc7920, 0x6d002f1e)
  {
    Bits5(bits);
    Four(op, bits, s, x, 20, 0x3e9e9126, 0xb5b204e4, 0xe25e1652, 0x4a1d804e, 0, 0, 0, 0,
        5, 9, 14, 20, 0xd62f105d, 0x02441453, 0xd8a1e681, 0xe7d3fbc8, 0x59a8ffda, 0x47092c07, 0xabfc7920, 0x6d002f1e);
  }

  lemma AbcFrom24(op: Operation, bits: Constant -> bv32, s: Chain, x: seq<Word>)
    requires IsOp(op) && IsToBits(bits) && AbcWords(x)
    requires Steps(op, 24, s, x) == ChainOf(0x59a8ffda, 0x47092c07, 0xabfc7920, 0x6d002f1e)
    ensures Steps(op, 28, s, x) == ChainOf(0xb7f268cf, 0x786acb8f, 0xfe1623b1, 0x09388eff)
  {
    Bits6(bits);
    Four(op, bits, s, x, 24, 0x59a8ffda, 0x47092c07, 0xabfc7920, 0x6d002f1e, 0, 0x00000018, 0, 0,
        5, 9, 14, 20, 0x21e1cde6, 0xc33707d6, 0xf4d50d87, 0x455a14ed, 0xb7f268cf, 0x786acb8f, 0xfe1623b1, 0x09388eff);
  }

  lemma AbcFrom28(op: Operation, bits: Constant -> bv32, s: Chain, x: seq<Word>)
    requires IsOp(op) && IsToBits(bits) && AbcWords(x)
    requires Steps(op, 28, s, x) == ChainOf(0xb7f268cf, 0x786acb8f, 0xfe1623b1, 0x09388eff)
    ensures Steps(op, 32, s, x) == ChainOf(0x790a77fb, 0x726342d3, 0xa62884aa, 0x9f47e4f8)
  {
    Bits7(bits);
    Four(op, bits, s, x, 28, 0xb7f268cf, 0x786acb8f, 0xfe1623b1, 0x09388eff, 0, 0, 0, 0,
        5, 9, 14, 20, 0xa9e3e905, 0xfcefa3f8, 0x676f02d9, 0x8d2a4c8a, 0x790a77fb, 0x726342d3, 0xa62884aa, 0x9f47e4f8);
  }

  lemma AbcFrom32(op: Operation, bits: Constant -> bv32, s: Chain, x: seq<Word>)
    requires IsOp(op) && IsToBits(bits) && AbcWords(x)
    requires Steps(op, 32, s, x) == ChainOf(0x790a77fb, 0x726342d3, 0xa62884aa, 0x9f47e4f8)
    ensures Steps(op, 36, s, x) == ChainOf(0xb3707ebf, 0x3b0875c7, 0x8d212ff5, 0x60127b2e)
  {
    Bits8(bits);
    Four(op, bits, s, x, 32, 0x790a77fb, 0x726342d3, 0xa62884aa, 0x9f47e4f8, 0, 0, 0, 0x00000018,
        4, 11, 16, 23, 0xfffa3942, 0x8771f681, 0x6d9d6122, 0xfde5380c, 0xb3707ebf, 0x3b0875c7, 0x8d212ff5, 0x60127b2e);
  }

  lemma AbcFrom36(op: Operation, bits: Constant -> bv32, s: Chain, x: seq<Word>)
    requires IsOp(op) && IsToBits(bits) && AbcWords(x)
    requires Steps(op, 36, s, x) == ChainOf(0xb3707ebf, 0x3b0875c7, 0x8d212ff5, 0x60127b2e)
    ensures Steps(op, 40, s, x) == ChainOf(0x21b117b9, 0x5a2f5ea5, 0x3575227e, 0x6e7429d5)
  {
    Bits9(bits);
    Four(op, bits, s, x, 36, 0xb3707ebf, 0x3b0875c7, 0x8d212ff5, 0x60127b2e, 0, 0, 0, 0,
        4, 11, 16, 23, 0xa4beea44, 0x4bdecfa9, 0xf6bb4b60, 0xbebfbc70, 0x21b117b9, 0x5a2f5ea5, 0x3575227e, 0x6e7429d5);
  }

  lemma AbcFrom40(op: Operation, bits: Constant -> bv32, s: Chain, x: seq<Word>)
    requires IsOp(op) && IsToBits(bits) && AbcWords(x)
    requires Steps(op, 40, s, x) == ChainOf(0x21b117b9, 0x5a2f5ea5, 0x3575227e, 0x6e7429d5)
    ensures Steps(op, 44, s, x) == ChainOf(0x11de1779, 0x4c6124f4, 0x31c465ca, 0xfadcaa38)
  {
    Bits10(bits);
    Four(op, bits, s, x, 40, 0x21b117b9, 0x5a2f5ea5, 0x3575227e, 0x6e7429d5, 0, 0x80636261, 0, 0,
        4, 11, 16, 23, 0x289b7ec6, 0xeaa127fa, 0xd4ef3085, 0x04881d05, 0x11de1779, 0x4c6124f4, 0x31c465ca, 0xfadcaa38);
  }

  lemma AbcFrom44(op: Operation, bits: Constant -> bv32, s: Chain, x: seq<Word>)
    requires IsOp(op) && IsToBits(bits) && AbcWords(x)
    requires Steps(op, 44, s, x) == ChainOf(0x11de1779, 0x4c6124f4, 0x31c465ca, 0xfadcaa38)
    ensures Steps(op, 48, s, x) == ChainOf(0x7f2e507b, 0x7beb9700, 0x8fae6399, 0x99d9679d)
  {
    Bits11(bits);
    Four(op, bits, s, x, 44, 0x11de1779, 0x4c6124f4, 0x31c465ca, 0xfadcaa38, 0, 0, 0, 0,
        4, 11, 16, 23, 0xd9d4d039, 0xe6db99e5, 0x1fa27cf8, 0xc4ac5665, 0x7f2e507b, 0x7beb9700, 0x8fae6399, 0x99d9679d);
  }

  lemma AbcFrom48(op: Operation, bits: Constant -> bv32, s: Chain, x: seq<Word>)
    requires IsOp(op) && IsToBits(bits) && AbcWords(x)
    requires Steps(op, 48, s, x) == ChainOf(0x7f2e507b, 0x7beb9700, 0x8fae6399, 0x99d9679d)
    ensures Steps(op, 52, s, x) == ChainOf(0x7b201df8, 0x8bf025c4, 0xb298cefd, 0xf4e8e96e)
  {
    Bits12(bits);
    Four(op, bits, s, x, 48, 0x7f2e507b, 0x7beb9700, 0x8fae6399, 0x99d9679d, 0x80636261, 0, 0x00000018, 0,
        6, 10, 15, 21, 0xf4292244, 0x432aff97, 0xab9423a7, 0xfc93a039, 0x7b201df8, 0x8bf025c4, 0xb298cefd, 0xf4e8e96e);
  }

  lemma AbcFrom52(op: Operation, bits: Constant -> bv32, s: Chain, x: seq<Word>)
    requires IsOp(op) && IsToBits(bits) && AbcWords(x)
    requires Steps(op, 52, s, x) == ChainOf(0x7b201df8, 0x8bf025c4, 0xb298cefd, 0xf4e8e96e)
    ensures Steps(op, 56, s, x) == ChainOf(0x06cc5e8a, 0x3bfa2c27, 0x7d632dd0, 0x5b0d97aa)
  {
    Bits13(bits);
    Four(op, bits, s, x, 52, 0x7b201df8, 0x8bf025c4, 0xb298cefd, 0xf4e8e96e, 0, 0, 0, 0,
        6, 10, 15, 21, 0x655b59c3, 0x8f0ccc92, 0xffeff47d, 0x85845dd1, 0x06cc5e8a, 0x3bfa2c27, 0x7d632dd0, 0x5b0d97aa);
  }

  lemma AbcFrom56(op: Operation, bits: Constant -> bv32, s: Chain, x: seq<Word>)
    requires IsOp(op) && IsToBits(bits) && AbcWords(x)
    requires Steps(op, 56, s, x) == ChainOf(0x06cc5e8a, 0x3bfa2c27, 0x7d632dd0, 0x5b0d97aa)
    ensures Steps(op, 60, s, x) == ChainOf(0x7f81cc35, 0x7327d604, 0x4f9dbe3f, 0x094454ab)
  {
    Bits14(bits);
    Four(op, bits, s, x, 56, 0x06cc5e8a, 0x3bfa2c27, 0x7d632dd0, 0x5b0d97aa, 0, 0, 0, 0,
        6, 10, 15, 21, 0x6fa87e4f, 0xfe2ce6e0, 0xa3014314, 0x4e0811a1, 0x7f81cc35, 0x7327d604, 0x4f9dbe3f, 0x094454ab);
  }

  lemma AbcFrom60(op: Operation, bits: Constant -> bv32, s: Chain, x: seq<Word>)
    requires IsOp(op) && IsToBits(bits) && AbcWords(x)
    requires Steps(op, 60, s, x) == ChainOf(0x7f81cc35, 0x7327d604, 0x4f9dbe3f, 0x094454ab)
    ensures Steps(op, 64, s, x) == ChainOf(0x310ade8f, 0xc08226b3, 0xe484b9d8, 0x624d8cb2)
  {
    Bits15(bits);
    Four(op, bits, s, x, 60, 0x7f81cc35, 0x7327d604, 0x4f9dbe3f, 0x094454ab, 0, 0, 0, 0,
        6, 10, 15, 21, 0xf7537e82, 0xbd3af235, 0x2ad7d2bb, 0xeb86d391, 0x310ade8f, 0xc08226b3, 0xe484b9d8, 0x624d8cb2);
  }

  /** All steps on this block. */
  lemma AbcRun(op: Operation, bits: Constant -> bv32, s: Chain, x: seq<Word>)
    requires IsOp(op) && IsToBits(bits) && AbcWords(x)
    requires s == ChainOf(0x67452301, 0xefcdab89, 0x98badcfe, 0x10325476)
    ensures Steps(op, 64, s, x) == ChainOf(0x310ade8f, 0xc08226b3, 0xe484b9d8, 0x624d8cb2)
  {
    AbcFrom0(op, bits, s, x);
    AbcFrom4(op, bits, s, x);
    AbcFrom8(op, bits, s, x);
    AbcFrom12(op, bits, s, x);
    AbcFrom16(op, bits, s, x);
    AbcFrom20(op, bits, s, x);
    AbcFrom24(op, bits, s, x);
    AbcFrom28(op, bits, s, x);
    AbcFrom32(op, bits, s, x);
    AbcFrom36(op, bits, s, x);
    AbcFrom40(op, bits, s, x);
    AbcFrom44(op, bits, s, x);
    AbcFrom48(op, bits, s, x);
    AbcFrom52(op, bits, s, x);
    AbcFrom56(op, bits, s, x);
    AbcFrom60(op, bits, s, x);
  }

  // ---------- the letters and digits, first block ----------

  predicate Long1Words(x: seq<Word>) {
    AreWords(x, 0x44434241, 0x48474645, 0x4c4b4a49, 0x504f4e4d, 0x54535251, 0x58575655, 0x62615a59, 0x66656463,
        0x6a696867, 0x6e6d6c6b, 0x7271706f, 0x76757473, 0x7a797877, 0x33323130, 0x37363534, 0x00803938)
  }

  lemma Long1From0(op: Operation, bits: Constant -> bv32, s: Chain, x: seq<Word>)
    requires IsOp(op) && IsToBits(bits) && Long1Words(x)
    requires Steps(op, 0, s, x) == ChainOf(0x67452301, 0xefcdab89, 0x98badcfe, 0x10325476)
    ensures Steps(op, 4, s, x) == ChainOf(0xc6c10796, 0x27bce07a, 0x11067980, 0x99a09999)
  {
    Bits0(bits);
    Four(op, bits, s, x, 0, 0x67452301, 0xefcdab89, 0x98badcfe,
        0x10325476, 0x44434241, 0x48474645, 0x4c4b4a49, 0x504f4e4d,
        7, 12, 17, 22, 0xd76aa478, 0xe8c7b756, 0x242070db, 0xc1bdceee, 0xc6c10796, 0x27bce07a, 0x11067980, 0x99a09999);
  }

  lemma Long1From4(op: Operation, bits: Constant -> bv32, s: Chain, x: seq<Word>)
    requires IsOp(op) && IsToBits(bits) && Long1Words(x)
    requires Steps(op, 4, s, x) == ChainOf(0xc6c10796, 0x27bce07a, 0x11067980, 0x99a09999)
    ensures Steps(op, 8, s, x) == ChainOf(0xf22e6c4e, 0xa4799506, 0xa95a2fc0, 0xb4ac9218)
  {
    Bits1(bits);
    Four(op, bits, s, x, 4, 0xc6c10796, 0x27bce07a, 0x11067980,
        0x99a09999, 0x54535251, 0x58575655, 0x62615a59, 0x66656463,
        7, 12, 17, 22, 0xf57c0faf, 0x4787c62a, 0xa8304613, 0xfd469501, 0xf22e6c4e, 0xa4799506, 0xa95a2fc0, 0xb4ac9218);
  }

  lemma Long1From8(op: Operation, bits: Constant -> bv32, s: Chain, x: seq<Word>)
    requires IsOp(op) && IsToBits(bits) && Long1Words(x)
    requires Steps(op, 8, s, x) == ChainOf(0xf22e6c4e, 0xa4799506, 0xa95a2fc0, 0xb4ac9218)
    ensures Steps(op, 12, s, x) == ChainOf(0x1eb3e7c1, 0x8a7612ec, 0xca27520b, 0xa6e70cfe)
  {
    Bits2(bits);
    Four(op, bits, s, x, 8, 0xf22e6c4e, 0xa4799506, 0xa95a2fc0,
        0xb4ac9218, 0x6a696867, 0x6e6d6c6b, 0x7271706f, 0x76757473,
        7, 12, 17, 22, 0x698098d8, 0x8b44f7af, 0xffff5bb1, 0x895cd7be, 0x1eb3e7c1, 0x8a7612ec, 0xca27520b, 0xa6e70cfe);
  }

  lemma Long1From12(op: Operation, bits: Constant -> bv32, s: Chain, x: seq<Word>)
    requires IsOp(op) && IsToBits(bits) && Long1Words(x)
    requires Steps(op, 12, s, x) == ChainOf(0x1eb3e7c1, 0x8a7612ec, 0xca27520b, 0xa6e70cfe)
    ensures Steps(op, 16, s, x) == ChainOf(0x3cbdcd45, 0x5d38e690, 0xfa148c8a, 0xb8dec763)
  {
    Bits3(bits);
    Four(op, bits, s, x, 12, 0x1eb3e7c1, 0x8a7612ec, 0xca27520b,
        0xa6e70cfe, 0x7a797877, 0x33323130, 0x37363534, 0x00803938,
        7, 12, 17, 22, 0x6b901122, 0xfd987193, 0xa679438e, 0x49b40821, 0x3cbdcd45, 0x5d38e690, 0xfa148c8a, 0xb8dec763);
  }

  lemma Long1From16(op: Operation, bits: Constant -> bv32, s: Chain, x: seq<Word>)
    requires IsOp(op) && IsToBits(bits) && Long1Words(x)
    requires Steps(op, 16, s, x) == ChainOf(0x3cbdcd45, 0x5d38e690, 0xfa148c8a, 0xb8dec763)
    ensures Steps(op, 20, s, x) == ChainOf(0x04b9d52a, 0x47ae7c81, 0xd3ee3ed1, 0x783002eb)
  {
    Bits4(bits);
    Four(op, bits, s, x, 16, 0x3cbdcd45, 0x5d38e690, 0xfa148c8a,
        0xb8dec763, 0x48474645, 0x62615a59, 0x76757473, 0x44434241,
        5, 9, 14, 20, 0xf61e2562, 0xc040b340, 0x265e5a51, 0xe9b6c7aa, 0x04b9d52a, 0x47ae7c81, 0xd3ee3ed1, 0x783002eb);
  }

  lemma Long1From20(op: Operation, bits: Constant -> bv32, s: Chain, x: seq<Word>)
    requires IsOp(op) && IsToBits(bits) && Long1Words(x)
    requires Steps(op, 20, s, x) == ChainOf(0x04b9d52a, 0x47ae7c81, 0xd3ee3ed1, 0x783002eb)
    ensures Steps(op, 24, s, x) == ChainOf(0x2d7d8a3f, 0x75292030, 0x4b534dc3, 0xd1210823)
  {
    Bits5(bits);
    Four(op, bits, s, x, 20, 0x04b9d52a, 0x47ae7c81, 0xd3ee3ed1,
        0x783002eb, 0x58575655, 0x7271706f, 0x00803938, 0x54535251,
        5, 9, 14, 20, 0xd62f105d, 0x02441453, 0xd8a1e681, 0xe7d3fbc8, 0x2d7d8a3f, 0x75292030, 0x4b534dc3, 0xd1210823);
  }

  lemma Long1From24(op: Operation, bits: Constant -> bv32, s: Chain, x: seq<Word>)
    requires IsOp(op) && IsToBits(bits) && Long1Words(x)
    requires Steps(op, 24, s, x) == ChainOf(0x2d7d8a3f, 0x75292030, 0x4b534dc3, 0xd1210823)
    ensures Steps(op, 28, s, x) == ChainOf(0x9d2a6e33, 0xf2ff6ea0, 0xd473b564, 0x0e8d2e44)
  {
    Bits6(bits);
    Four(op, bits, s, x, 24, 0x2d7d8a3f, 0x75292030, 0x4b534dc3,
        0xd1210823, 0x6e6d6c6b, 0x37363534, 0x504f4e4d, 0x6a696867,
        5, 9, 14, 20, 0x21e1cde6, 0xc33707d6, 0xf4d50d87, 0x455a14ed, 0x9d2a6e33, 0xf2ff6ea0, 0xd473b564, 0x0e8d2e44);
  }

  lemma Long1From28(op: Operation, bits: Constant -> bv32, s: Chain, x: seq<Word>)
    requires IsOp(op) && IsToBits(bits) && Long1Words(x)
    requires Steps(op, 28, s, x) == ChainOf(0x9d2a6e33, 0xf2ff6ea0, 0xd473b564, 0x0e8d2e44)
    ensures Steps(op, 32, s, x) == ChainOf(0x9b085fa9, 0xdd789ecc, 0x5993248f, 0x4400a9bd)
  {
    Bits7(bits);
    Four(op, bits, s, x, 28, 0x9d2a6e33, 0xf2ff6ea0, 0xd473b564,
        0x0e8d2e44, 0x33323130, 0x4c4b4a49, 0x66656463, 0x7a797877,
        5, 9, 14, 20, 0xa9e3e905, 0xfcefa3f8, 0x676f02d9, 0x8d2a4c8a, 0x9b085fa9, 0xdd789ecc, 0x5993248f, 0x4400a9bd);
  }

  lemma Long1From32(op: Operation, bits: Constant -> bv32, s: Chain, x: seq<Word>)
    requires IsOp(op) && IsToBits(bits) && Long1Words(x)
    requires Steps(op, 32, s, x) == ChainOf(0x9b085fa9, 0xdd789ecc, 0x5993248f, 0x4400a9bd)
    ensures Steps(op, 36, s, x) == ChainOf(0x21c8d2b7, 0x1b9504f8, 0x056ec119, 0x1d55a18e)
  {
    Bits8(bits);
    Four(op, bits, s, x, 32, 0x9b085fa9, 0xdd789ecc, 0x5993248f,
        0x4400a9bd, 0x58575655, 0x6a696867, 0x76757473, 0x37363534,
        4, 11, 16, 23, 0xfffa3942, 0x8771f681, 0x6d9d6122, 0xfde5380c, 0x21c8d2b7, 0x1b9504f8, 0x056ec119, 0x1d55a18e);
  }

  lemma Long1From36(op: Operation, bits: Constant -> bv32, s: Chain, x: seq<Word>)
    requires IsOp(op) && IsToBits(bits) && Long1Words(x)
    requires Steps(op, 36, s, x) == ChainOf(0x21c8d2b7, 0x1b9504f8, 0x056ec119, 0x1d55a18e)
    ensures Steps(op, 40, s, x) == ChainOf(0x436b7fe9, 0xcf0341ed, 0xf404c2f6, 0x075800c1)
  {
    Bits9(bits);
    Four(op, bits, s, x, 36, 0x21c8d2b7, 0x1b9504f8, 0x056ec119,
        0x1d55a18e, 0x48474645, 0x54535251, 0x66656463, 0x7271706f,
        4, 11, 16, 23, 0xa4beea44, 0x4bdecfa9, 0xf6bb4b60, 0xbebfbc70, 0x436b7fe9, 0xcf0341ed, 0xf404c2f6, 0x075800c1);
  }

  lemma Long1From40(op: Operation, bits: Constant -> bv32, s: Chain, x: seq<Word>)
    requires IsOp(op) && IsToBits(bits) && Long1Words(x)
    requires Steps(op, 40, s, x) == ChainOf(0x436b7fe9, 0xcf0341ed, 0xf404c2f6, 0x075800c1)
    ensures Steps(op, 44, s, x) == ChainOf(0x888e7d8a, 0x047b9419, 0xce620273, 0xbbdaecd8)
  {
    Bits10(bits);
    Four(op, bits, s, x, 40, 0x436b7fe9, 0xcf0341ed, 0xf404c2f6,
        0x075800c1, 0x33323130, 0x44434241, 0x504f4e4d, 0x62615a59,
        4, 11, 16, 23, 0x289b7ec6, 0xeaa127fa, 0xd4ef3085, 0x04881d05, 0x888e7d8a, 0x047b9419, 0xce620273, 0xbbdaecd8);
  }

  lemma Long1From44(op: Operation, bits: Constant -> bv32, s: Chain, x: seq<Word>)
    requires IsOp(op) && IsToBits(bits) && Long1Words(x)
    requires Steps(op, 44, s, x) == ChainOf(0x888e7d8a, 0x047b9419, 0xce620273, 0xbbdaecd8)
    ensures Steps(op, 48, s, x) == ChainOf(0x2dbee21d, 0xf166f514, 0xee46e961, 0xe95c3a43)
  {
    Bits11(bits);
    Four(op, bits, s, x, 44, 0x888e7d8a, 0x047b9419, 0xce620273,
        0xbbdaecd8, 0x6e6d6c6b, 0x7a797877, 0x00803938, 0x4c4b4a49,
        4, 11, 16, 23, 0xd9d4d039, 0xe6db99e5, 0x1fa27cf8, 0xc4ac5665, 0x2dbee21d, 0xf166f514, 0xee46e961, 0xe95c3a43);
  }

  lemma Long1From48(op: Operation, bits: Constant -> bv32, s: Chain, x: seq<Word>)
    requires IsOp(op) && IsToBits(bits) && Long1Words(x)
    requires Steps(op, 48, s, x) == ChainOf(0x2dbee21d, 0xf166f514, 0xee46e961, 0xe95c3a43)
    ensures Steps(op, 52, s, x) == ChainOf(0xe47fd4f3, 0x7a13bc5c, 0xf22aedcc, 0xfb887751)
  {
    Bits12(bits);
    Four(op, bits, s, x, 48, 0x2dbee21d, 0xf166f514, 0xee46e961,
        0xe95c3a43, 0x44434241, 0x66656463, 0x37363534, 0x58575655,
        6, 10, 15, 21, 0xf4292244, 0x432aff97, 0xab9423a7, 0xfc93a039, 0xe47fd4f3, 0x7a13bc5c, 0xf22aedcc, 0xfb887751);
  }

  lemma Long1From52(op: Operation, bits: Constant -> bv32, s: Chain, x: seq<Word>)
    requires IsOp(op) && IsToBits(bits) && Long1Words(x)
    requires Steps(op, 52, s, x) == ChainOf(0xe47fd4f3, 0x7a13bc5c, 0xf22aedcc, 0xfb887751)
    ensures Steps(op, 56, s, x) == ChainOf(0xa691d430, 0xefb0e72f, 0x3fc23df6, 0x528452f2)
  {
    Bits13(bits);
    Four(op, bits, s, x, 52, 0xe47fd4f3, 0x7a13bc5c, 0xf22aedcc,
        0xfb887751, 0x7a797877, 0x504f4e4d, 0x7271706f, 0x48474645,
        6, 10, 15, 21, 0x655b59c3, 0x8f0ccc92, 0xffeff47d, 0x85845dd1, 0xa691d430, 0xefb0e72f, 0x3fc23df6, 0x528452f2);
  }

  lemma Long1From56(op: Operation, bits: Constant -> bv32, s: Chain, x: seq<Word>)
    requires IsOp(op) && IsToBits(bits) && Long1Words(x)
    requires Steps(op, 56, s, x) == ChainOf(0xa691d430, 0xefb0e72f, 0x3fc23df6, 0x528452f2)
    ensures Steps(op, 60, s, x) == ChainOf(0x27145703, 0x49d9a5b4, 0x374fbe79, 0x21a11069)
  {
    Bits14(bits);
    Four(op, bits, s, x, 56, 0xa691d430, 0xefb0e72f, 0x3fc23df6,
        0x528452f2, 0x6a696867, 0x00803938, 0x62615a59, 0x33323130,
        6, 10, 15, 21, 0x6fa87e4f, 0xfe2ce6e0, 0xa3014314, 0x4e0811a1, 0x27145703, 0x49d9a5b4, 0x374fbe79, 0x21a11069);
  }

  lemma Long1From60(op: Operation, bits: Constant -> bv32, s: Chain, x: seq<Word>)
    requires IsOp(op) && IsToBits(bits) && Long1Words(x)
    requires Steps(op, 60, s, x) == ChainOf(0x27145703, 0x49d9a5b4, 0x374fbe79, 0x21a11069)
    ensures Steps(op, 64, s, x) == ChainOf(0x1cb80f0a, 0xef2e3a46, 0x10f68731, 0xea3d3eb4)
  {
    Bits15(bits);
    Four(op, bits, s, x, 60, 0x27145703, 0x49d9a5b4, 0x374fbe79,
        0x21a11069, 0x54535251, 0x76757473, 0x4c4b4a49, 0x6e6d6c6b,
        6, 10, 15, 21, 0xf7537e82, 0xbd3af235, 0x2ad7d2bb, 0xeb86d391, 0x1cb80f0a, 0xef2e3a46, 0x10f68731, 0xea3d3eb4);
  }

  /** All steps on this block. */
  lemma Long1Run(op: Operation, bits: Constant -> bv32, s: Chain, x: seq<Word>)
    requires IsOp(op) && IsToBits(bits) && Long1Words(x)
    requires s == ChainOf(0x67452301, 0xefcdab89, 0x98badcfe, 0x10325476)
    ensures Steps(op, 64, s, x) == ChainOf(0x1cb80f0a, 0xef2e3a46, 0x10f68731, 0xea3d3eb4)
  {
    Long1From0(op, bits, s, x);
    Long1From4(op, bits, s, x);
    Long1From8(op, bits, s, x);
    Long1From12(op, bits, s, x);
    Long1From16(op, bits, s, x);
    Long1From20(op, bits, s, x);
    Long1From24(op, bits, s, x);
    Long1From28(op, bits, s, x);
    Long1From32(op, bits, s, x);
    Long1From36(op, bits, s, x);
    Long1From40(op, bits, s, x);
    Long1From44(op, bits, s, x);
    Long1From48(op, bits, s, x);
    Long1From52(op, bits, s, x);
    Long1From56(op, bits, s, x);
    Long1From60(op, bits, s, x);
  }

  // ---------- the letters and digits, second block ----------

  predicate Long2Words(x: seq<Word>) {
    AreWords(x, 0, 0, 0, 0, 0, 0, 0, 0, 0, 0, 0, 0, 0, 0, 0x000001f0, 0)
  }

  lemma Long2From0(op: Operation, bits: Constant -> bv32, s: Chain, x: seq<Word>)
    requires IsOp(op) && IsToBits(bits) && Long2Words(x)
    requires Steps(op, 0, s, x) == ChainOf(0x83fd320b, 0xdefbe5cf, 0xa9b1642f, 0xfa6f932a)
    ensures Steps(op, 4, s, x) == ChainOf(0xeda23ed1, 0xddcf0634, 0x3c307338, 0x989939cf)
  {
    Bits0(bits);
    Four(op, bits, s, x, 0, 0x83fd320b, 0xdefbe5cf, 0xa9b1642f, 0xfa6f932a, 0, 0, 0, 0,
        7, 12, 17, 22, 0xd76aa478, 0xe8c7b756, 0x242070db, 0xc1bdceee, 0xeda23ed1, 0xddcf0634, 0x3c307338, 0x989939cf);
  }

  lemma Long2From4(op: Operation, bits: Constant -> bv32, s: Chain, x: seq<Word>)
    requires IsOp(op) && IsToBits(bits) && Long2Words(x)
    requires Steps(op, 4, s, x) == ChainOf(0xeda23ed1, 0xddcf0634, 0x3c307338, 0x989939cf)
    ensures Steps(op, 8, s, x) == ChainOf(0x75144433, 0x99b6b699, 0xc783cb60, 0xc8875807)
  {
    Bits1(bits);
    Four(op, bits, s, x, 4, 0xeda23ed1, 0xddcf0634, 0x3c307338, 0x989939cf, 0, 0, 0, 0,
        7, 12, 17, 22, 0xf57c0faf, 0x4787c62a, 0xa8304613, 0xfd469501, 0x75144433, 0x99b6b699, 0xc783cb60, 0xc8875807);
  }

  lemma Long2From8(op: Operation, bits: Constant -> bv32, s: Chain, x: seq<Word>)
    requires IsOp(op) && IsToBits(bits) && Long2Words(x)
    requires Steps(op, 8, s, x) == ChainOf(0x75144433, 0x99b6b699, 0xc783cb60, 0xc8875807)
    ensures Steps(op, 12, s, x) == ChainOf(0xa60a3f69, 0x64cc7c5a, 0x64db26e9, 0xaa6630be)
  {
    Bits2(bits);
    Four(op, bits, s, x, 8, 0x75144433, 0x99b6b699, 0xc783cb60, 0xc8875807, 0, 0, 0, 0,
        7, 12, 17, 22, 0x698098d8, 0x8b44f7af, 0xffff5bb1, 0x895cd7be, 0xa60a3f69, 0x64cc7c5a, 0x64db26e9, 0xaa6630be);
  }

  lemma Long2From12(op: Operation, bits: Constant -> bv32, s: Chain, x: seq<Word>)
    requires IsOp(op) && IsToBits(bits) && Long2Words(x)
    requires Steps(op, 12, s, x) == ChainOf(0xa60a3f69, 0x64cc7c5a, 0x64db26e9, 0xaa6630be)
    ensures Steps(op, 16, s, x) == ChainOf(0xa70737da, 0xa36f556f, 0x96f6586e, 0x5473f8a7)
  {
    Bits3(bits);
    Four(op, bits, s, x, 12, 0xa60a3f69, 0x64cc7c5a, 0x64db26e9, 0xaa6630be, 0, 0, 0x000001f0, 0,
        7, 12, 17, 22, 0x6b901122, 0xfd987193, 0xa679438e, 0x49b40821, 0xa70737da, 0xa36f556f, 0x96f6586e, 0x5473f8a7);
  }

  lemma Long2From16(op: Operation, bits: Constant -> bv32, s: Chain, x: seq<Word>)
    requires IsOp(op) && IsToBits(bits) && Long2Words(x)
    requires Steps(op, 16, s, x) == ChainOf(0xa70737da, 0xa36f556f, 0x96f6586e, 0x5473f8a7)
    ensures Steps(op, 20, s, x) == ChainOf(0xa5050ad3, 0x82b8827c, 0x27dcd8b4, 0x28776046)
  {
    Bits4(bits);
    Four(op, bits, s, x, 16, 0xa70737da, 0xa36f556f, 0x96f6586e, 0x5473f8a7, 0, 0, 0, 0,
        5, 9, 14, 20, 0xf61e2562, 0xc040b340, 0x265e5a51, 0xe9b6c7aa, 0xa5050ad3, 0x82b8827c, 0x27dcd8b4, 0x28776046);
  }

  lemma Long2From20(op: Operation, bits: Constant -> bv32, s: Chain, x: seq<Word>)
    requires IsOp(op) && IsToBits(bits) && Long2Words(x)
    requires Steps(op, 20, s, x) == ChainOf(0xa5050ad3, 0x82b8827c, 0x27dcd8b4, 0x28776046)
    ensures Steps(op, 24, s, x) == ChainOf(0xe04f070c, 0xdf35cb56, 0xc0d22b61, 0x2f3cd2a2)
  {
    Bits5(bits);
    Four(op, bits, s, x, 20, 0xa5050ad3, 0x82b8827c, 0x27dcd8b4, 0x28776046, 0, 0, 0, 0,
        5, 9, 14, 20, 0xd62f105d, 0x02441453, 0xd8a1e681, 0xe7d3fbc8, 0xe04f070c, 0xdf35cb56, 0xc0d22b61, 0x2f3cd2a2);
  }

  lemma Long2From24(op: Operation, bits: Constant -> bv32, s: Chain, x: seq<Word>)
    requires IsOp(op) && IsToBits(bits) && Long2Words(x)
    requires Steps(op, 24, s, x) == ChainOf(0xe04f070c, 0xdf35cb56, 0xc0d22b61, 0x2f3cd2a2)
    ensures Steps(op, 28, s, x) == ChainOf(0x242dd210, 0x2291191a, 0x5c295967, 0x576ace33)
  {
    Bits6(bits);
    Four(op, bits, s, x, 24, 0xe04f070c, 0xdf35cb56, 0xc0d22b61, 0x2f3cd2a2, 0, 0x000001f0, 0, 0,
        5, 9, 14, 20, 0x21e1cde6, 0xc33707d6, 0xf4d50d87, 0x455a14ed, 0x242dd210, 0x2291191a, 0x5c295967, 0x576ace33);
  }

  lemma Long2From28(op: Operation, bits: Constant -> bv32, s: Chain, x: seq<Word>)
    requires IsOp(op) && IsToBits(bits) && Long2Words(x)
    requires Steps(op, 28, s, x) == ChainOf(0x242dd210, 0x2291191a, 0x5c295967, 0x576ace33)
    ensures Steps(op, 32, s, x) == ChainOf(0x24eba695, 0x9c03e2e8, 0x10c42a2f, 0x4bd0378b)
  {
    Bits7(bits);
    Four(op, bits, s, x, 28, 0x242dd210, 0x2291191a, 0x5c295967, 0x576ace33, 0, 0, 0, 0,
        5, 9, 14, 20, 0xa9e3e905, 0xfcefa3f8, 0x676f02d9, 0x8d2a4c8a, 0x24eba695, 0x9c03e2e8, 0x10c42a2f, 0x4bd0378b);
  }

  lemma Long2From32(op: Operation, bits: Constant -> bv32, s: Chain, x: seq<Word>)
    requires IsOp(op) && IsToBits(bits) && Long2Words(x)
    requires Steps(op, 32, s, x) == ChainOf(0x24eba695, 0x9c03e2e8, 0x10c42a2f, 0x4bd0378b)
    ensures Steps(op, 36, s, x) == ChainOf(0x5be1d526, 0xa2448453, 0x9f4a1a7e, 0x9e414279)
  {
    Bits8(bits);
    Four(op, bits, s, x, 32, 0x24eba695, 0x9c03e2e8, 0x10c42a2f, 0x4bd0378b, 0, 0, 0, 0x000001f0,
        4, 11, 16, 23, 0xfffa3942, 0x8771f681, 0x6d9d6122, 0xfde5380c, 0x5be1d526, 0xa2448453, 0x9f4a1a7e, 0x9e414279);
  }

  lemma Long2From36(op: Operation, bits: Constant -> bv32, s: Chain, x: seq<Word>)
    requires IsOp(op) && IsToBits(bits) && Long2Words(x)
    requires Steps(op, 36, s, x) == ChainOf(0x5be1d526, 0xa2448453, 0x9f4a1a7e, 0x9e414279)
    ensures Steps(op, 40, s, x) == ChainOf(0xe14e403d, 0xfe314121, 0x60cc183a, 0xe8cfd670)
  {
    Bits9(bits);
    Four(op, bits, s, x, 36, 0x5be1d526, 0xa2448453, 0x9f4a1a7e, 0x9e414279, 0, 0, 0, 0,
        4, 11, 16, 23, 0xa4beea44, 0x4bdecfa9, 0xf6bb4b60, 0xbebfbc70, 0xe14e403d, 0xfe314121, 0x60cc183a, 0xe8cfd670);
  }

  lemma Long2From40(op: Operation, bits: Constant -> bv32, s: Chain, x: seq<Word>)
    requires IsOp(op) && IsToBits(bits) && Long2Words(x)
    requires Steps(op, 40, s, x) == ChainOf(0xe14e403d, 0xfe314121, 0x60cc183a, 0xe8cfd670)
    ensures Steps(op, 44, s, x) == ChainOf(0xfff62809, 0x7c7e974c, 0x8cb5221c, 0xe37209ac)
  {
    Bits10(bits);
    Four(op, bits, s, x, 40, 0xe14e403d, 0xfe314121, 0x60cc183a, 0xe8cfd670, 0, 0, 0, 0,
        4, 11, 16, 23, 0x289b7ec6, 0xeaa127fa, 0xd4ef3085, 0x04881d05, 0xfff62809, 0x7c7e974c, 0x8cb5221c, 0xe37209ac);
  }

  lemma Long2From44(op: Operation, bits: Constant -> bv32, s: Chain, x: seq<Word>)
    requires IsOp(op) && IsToBits(bits) && Long2Words(x)
    requires Steps(op, 44, s, x) == ChainOf(0xfff62809, 0x7c7e974c, 0x8cb5221c, 0xe37209ac)
    ensures Steps(op, 48, s, x) == ChainOf(0x54c9eb3a, 0x79c0710a, 0x2ec86f72, 0xd4d9c6ac)
  {
    Bits11(bits);
    Four(op, bits, s, x, 44, 0xfff62809, 0x7c7e974c, 0x8cb5221c, 0xe37209ac, 0, 0, 0, 0,
        4, 11, 16, 23, 0xd9d4d039, 0xe6db99e5, 0x1fa27cf8, 0xc4ac5665, 0x54c9eb3a, 0x79c0710a, 0x2ec86f72, 0xd4d9c6ac);
  }

  lemma Long2From48(op: Operation, bits: Constant -> bv32, s: Chain, x: seq<Word>)
    requires IsOp(op) && IsToBits(bits) && Long2Words(x)
    requires Steps(op, 48, s, x) == ChainOf(0x54c9eb3a, 0x79c0710a, 0x2ec86f72, 0xd4d9c6ac)
    ensures Steps(op, 52, s, x) == ChainOf(0x02095af1, 0x2ba98e3f, 0xa8dcfe26, 0x13d245fd)
  {
    Bits12(bits);
    Four(op, bits, s, x, 48, 0x54c9eb3a, 0x79c0710a, 0x2ec86f72, 0xd4d9c6ac, 0, 0, 0x000001f0, 0,
        6, 10, 15, 21, 0xf4292244, 0x432aff97, 0xab9423a7, 0xfc93a039, 0x02095af1, 0x2ba98e3f, 0xa8dcfe26, 0x13d245fd);
  }

  lemma Long2From52(op: Operation, bits: Constant -> bv32, s: Chain, x: seq<Word>)
    requires IsOp(op) && IsToBits(bits) && Long2Words(x)
    requires Steps(op, 52, s, x) == ChainOf(0x02095af1, 0x2ba98e3f, 0xa8dcfe26, 0x13d245fd)
    ensures Steps(op, 56, s, x) == ChainOf(0xe126c1aa, 0xfb7bcee0, 0x6f287ff5, 0x96b00fa7)
  {
    Bits13(bits);
    Four(op, bits, s, x, 52, 0x02095af1, 0x2ba98e3f, 0xa8dcfe26, 0x13d245fd, 0, 0, 0, 0,
        6, 10, 15, 21, 0x655b59c3, 0x8f0ccc92, 0xffeff47d, 0x85845dd1, 0xe126c1aa, 0xfb7bcee0, 0x6f287ff5, 0x96b00fa7);
  }

  lemma Long2From56(op: Operation, bits: Constant -> bv32, s: Chain, x: seq<Word>)
    requires IsOp(op) && IsToBits(bits) && Long2Words(x)
    requires Steps(op, 56, s, x) == ChainOf(0xe126c1aa, 0xfb7bcee0, 0x6f287ff5, 0x96b00fa7)
    ensures Steps(op, 60, s, x) == ChainOf(0x452c1099, 0x5ac74608, 0xc197ea8e, 0xca801ba6)
  {
    Bits14(bits);
    Four(op, bits, s, x, 56, 0xe126c1aa, 0xfb7bcee0, 0x6f287ff5, 0x96b00fa7, 0, 0, 0, 0,
        6, 10, 15, 21, 0x6fa87e4f, 0xfe2ce6e0, 0xa3014314, 0x4e0811a1, 0x452c1099, 0x5ac74608, 0xc197ea8e, 0xca801ba6);
  }

  lemma Long2From60(op: Operation, bits: Constant -> bv32, s: Chain, x: seq<Word>)
    requires IsOp(op) && IsToBits(bits) && Long2Words(x)
    requires Steps(op, 60, s, x) == ChainOf(0x452c1099, 0x5ac74608, 0xc197ea8e, 0xca801ba6)
    ensures Steps(op, 64, s, x) == ChainOf(0x14ae42c6, 0x16dd9203, 0x826afd76, 0xa52dae75)
  {
    Bits15(bits);
    Four(op, bits, s, x, 60, 0x452c1099, 0x5ac74608, 0xc197ea8e, 0xca801ba6, 0, 0, 0, 0,
        6, 10, 15, 21, 0xf7537e82, 0xbd3af235, 0x2ad7d2bb, 0xeb86d391, 0x14ae42c6, 0x16dd9203, 0x826afd76, 0xa52dae75);
  }

  /** All steps on this block. */
  lemma Long2Run(op: Operation, bits: Constant -> bv32, s: Chain, x: seq<Word>)
    requires IsOp(op) && IsToBits(bits) && Long2Words(x)
    requires s == ChainOf(0x83fd320b, 0xdefbe5cf, 0xa9b1642f, 0xfa6f932a)
    ensures Steps(op, 64, s, x) == ChainOf(0x14ae42c6, 0x16dd9203, 0x826afd76, 0xa52dae75)
  {
    Long2From0(op, bits, s, x);
    Long2From4(op, bits, s, x);
    Long2From8(op, bits, s, x);
    Long2From12(op, bits, s, x);
    Long2From16(op, bits, s, x);
    Long2From20(op, bits, s, x);
    Long2From24(op, bits, s, x);
    Long2From28(op, bits, s, x);
    Long2From32(op, bits, s, x);
    Long2From36(op, bits, s, x);
    Long2From40(op, bits, s, x);
    Long2From44(op, bits, s, x);
    Long2From48(op, bits, s, x);
    Long2From52(op, bits, s, x);
    Long2From56(op, bits, s, x);
    Long2From60(op, bits, s, x);
  }
}
