/**
 The digest of RFC 1321, sections 3.1 to 3.5, for messages of whole bytes. The operation of the
 64-step loop is a parameter, so that nothing here unfolds it.
 */
module Md5Digest {
  import opened Md5Words
  import opened Md5Rounds

  const INITIAL := Chain(Word(0x67452301), Word(0xefcdab89), Word(0x98badcfe), Word(0x10325476))

  function Words(block: seq<Byte>): (x: seq<Word>)
    requires |block| == 64
    ensures |x| == 16
  {
    seq(16, i requires 0 <= i < 16 => WordAt(block, i))
  }

  /** Section 3.4: all steps on one block, added to the chain word by word. */
  function Compress(op: Operation, s: Chain, block: seq<Byte>): Chain
    requires |block| == 64
  {
    var x := Words(block);
    AddChain(s, Steps(op, 4 * |x|, s, x))
  }

  function AddChain(s: Chain, e: Chain): Chain {
    Chain(Add(e.a, s.a), Add(e.b, s.b), Add(e.c, s.c), Add(e.d, s.d))
  }

  /** A compression function; folding does not depend on what it computes. */
  type Compressor = (Chain, seq<Byte>) -> Chain

  /** `h` is the compression function of the RFC. */
  ghost predicate IsCompress(h: Compressor) {
    forall s, block {:trigger Compress(Op, s, block)} :: |block| == 64 ==> h(s, block) == Compress(Op, s, block)
  }

  function Fold(h: Compressor, s: Chain, bytes: seq<Byte>): Chain
    decreases |bytes|
  {
    if |bytes| < 64 then s else Fold(h, h(s, bytes[..64]), bytes[64..])
  }

  lemma {:induction false} FoldAppend(h: Compressor, s: Chain, u: seq<Byte>, v: seq<Byte>)
    requires |u| % 64 == 0
    ensures Fold(h, s, u + v) == Fold(h, Fold(h, s, u), v)
    decreases |u|
  {
    if u == [] {
      assert u + v == v;
    } else {
      assert (u + v)[..64] == u[..64];
      assert (u + v)[64..] == u[64..] + v;
      FoldAppend(h, h(s, u[..64]), u[64..], v);
    }
  }

  lemma FoldNothing(h: Compressor, s: Chain)
    ensures Fold(h, s, []) == s
  {
  }

  lemma FoldOne(h: Compressor, s: Chain, u: seq<Byte>, block: seq<Byte>)
    requires |u| % 64 == 0 && |block| == 64
    ensures Fold(h, s, u + block) == h(Fold(h, s, u), block)
  {
    FoldAppend(h, s, u, block);
    assert block[..64] == block;
    var r := h(Fold(h, s, u), block);
    assert Fold(h, r, block[64..]) == r;
  }

  // ---------- padding and output ----------

  function Zeros(n: nat): (z: seq<Byte>)
    ensures |z| == n
  {
    seq(n, i => 0)
  }

  function WordOf(n: Constant): Word {
    Word(ToBits(n))
  }

  /** Section 3.2: the length in bits modulo 2^64, low-order word first. */
  function Length(bytes: nat): (r: seq<Byte>)
    ensures |r| == 8
  {
    Bytes(WordOf(8 * bytes % 0x1_0000_0000)) + Bytes(WordOf(8 * bytes / 0x1_0000_0000 % 0x1_0000_0000))
  }

  /** Section 3.1: a one bit, then zero bits up to 56 modulo 64 bytes. */
  function Filler(bytes: nat): (r: seq<Byte>)
    ensures 1 <= |r| <= 64 && (bytes + |r|) % 64 == 56
  {
    [0x80] + Zeros((119 - bytes % 64) % 64)
  }

  lemma WholeBlocks(n: nat)
    requires n % 64 == 56
    ensures (n + 8) % 64 == 0
  {
  }

  function Padded(m: seq<Byte>): (r: seq<Byte>)
    ensures |r| % 64 == 0
  {
    var f := Filler(|m|);
    var l := Length(|m|);
    WholeBlocks(|m| + |f|);
    m + f + l
  }

  function Output(s: Chain): (r: seq<Byte>)
    ensures |r| == 16
  {
    Bytes(s.a) + Bytes(s.b) + Bytes(s.c) + Bytes(s.d)
  }

  function Digest(h: Compressor, m: seq<Byte>): (r: seq<Byte>)
    ensures |r| == 16
  {
    Output(Fold(h, INITIAL, Padded(m)))
  }
}
