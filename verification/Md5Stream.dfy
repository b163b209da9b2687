/** The streaming implementation of MD5 and its agreement with the digest of the RFC. */
module Md5Stream {
  import opened Md5Words
  import opened Md5Rounds
  import opened Md5Digest
  import opened Md5Length
  import opened Wrappers

  /** The bytes counted so far, modulo 2^64, in two 32-bit words. */
  ghost predicate Counts(t0: Constant, t1: Constant, n: nat) {
    t0 + 0x1_0000_0000 * t1 == n % 0x1_0000_0000_0000_0000
  }

  /** The carry between the two words. */
  method AddCount(t0: Constant, t1: Constant, len: Constant, ghost n: nat) returns (r0: Constant, r1: Constant)
    requires Counts(t0, t1, n)
    ensures Counts(r0, r1, n + len)
  {
    r0, r1 := t0, t1;
    if r0 > 0xffff_ffff - len {
      r1 := (r1 + 1) % 0x1_0000_0000;
      r0 := r0 - (0x1_0000_0000 - len);
    } else {
      r0 := r0 + len;
    }
    CountedSum(t0, t1, r0, r1, n, len);
  }

  lemma CountedSum(t0: Constant, t1: Constant, r0: Constant, r1: Constant, n: nat, len: Constant)
    requires Counts(t0, t1, n)
    requires if t0 + len < 0x1_0000_0000 then r0 == t0 + len && r1 == t1
             else r0 == t0 + len - 0x1_0000_0000 && r1 == (t1 + 1) % 0x1_0000_0000
    ensures Counts(r0, r1, n + len)
  {
    var q := n / 0x1_0000_0000_0000_0000;
    var carry := if t0 + len >= 0x1_0000_0000 && t1 == 0xffff_ffff then 1 else 0;
    assert n == q * 0x1_0000_0000_0000_0000 + (t0 + 0x1_0000_0000 * t1);
    Remainder(n + len, q + carry, r0 + 0x1_0000_0000 * r1);
  }

  lemma Remainder(n: nat, q: nat, r: nat)
    requires r < 0x1_0000_0000_0000_0000 && n == q * 0x1_0000_0000_0000_0000 + r
    ensures n % 0x1_0000_0000_0000_0000 == r
  {
  }

  /** Masks, shifts and or make the length in bits out of the two counters. */
  lemma LengthWords(t0: Constant, t1: Constant, n: nat, low: nat, high: nat)
    requires Counts(t0, t1, n) && low == 0x1FFF_FFFF && high == 0xE000_0000
    ensures ShiftLeft(And(t0, low), 3) == 8 * n % 0x1_0000_0000
    ensures Or(ShiftLeft(t1, 3), Down(And(t0, high), 29)) == 8 * n / 0x1_0000_0000 % 0x1_0000_0000
  {
    LowWordIs(t0, low);
    HighWordIs(t0, t1, high);
    BitCount(t0, t1, n);
  }

  lemma BitCount(t0: Constant, t1: Constant, n: nat)
    requires Counts(t0, t1, n)
    ensures t0 % 0x2000_0000 * 8 == 8 * n % 0x1_0000_0000
    ensures t1 * 8 % 0x1_0000_0000 + t0 / 0x2000_0000 == 8 * n / 0x1_0000_0000 % 0x1_0000_0000
  {
    var q := n / 0x1_0000_0000_0000_0000;
    var k := q * 0x1_0000_0000 + t1;
    var h := t0 / 0x2000_0000;
    assert n == k * 0x1_0000_0000 + t0;
    Parts(8 * n, 8 * k + h, t0 % 0x2000_0000 * 8);
    Parts(t1 * 8, t1 / 0x2000_0000, t1 % 0x2000_0000 * 8);
    Parts(8 * k + h, 8 * q + t1 / 0x2000_0000, t1 % 0x2000_0000 * 8 + h);
  }

  lemma Parts(n: nat, q: nat, r: nat)
    requires r < 0x1_0000_0000 && n == q * 0x1_0000_0000 + r
    ensures n / 0x1_0000_0000 == q && n % 0x1_0000_0000 == r
  {
  }

  lemma Whole(x: nat, y: nat)
    requires x % 64 == 0 && y % 64 == 0
    ensures (x + y) % 64 == 0
  {
  }

  lemma OneMore(p: nat, n: nat)
    requires p % 64 == 0 && n % 64 == 0 && p < n
    ensures p + 64 <= n && (p + 64) % 64 == 0
  {
  }

  lemma WholePart(n: nat)
    ensures n / 64 * 64 <= n && n / 64 * 64 % 64 == 0 && n - n / 64 * 64 == n % 64 == Excess(n)
  {
    ExcessIs(n);
  }

  /** What exceeds whole blocks. */
  function Excess(n: nat): (r: nat)
    ensures r < 64
  {
    if n < 64 then n else Excess(n - 64)
  }

  lemma {:induction false} ExcessIs(n: nat)
    ensures Excess(n) == n % 64
    decreases n
  {
    if n >= 64 {
      ExcessIs(n - 64);
    }
  }

  lemma {:induction false} ExcessAdds(m: nat, n: nat)
    ensures Excess(Excess(m) + n) == Excess(m + n)
    decreases m
  {
    if m >= 64 {
      ExcessAdds(m - 64, n);
    }
  }

  lemma Extended(m: seq<Byte>, bytes: seq<Byte>, p: nat)
    requires |m| % 64 == 0 && p % 64 == 0 && p + 64 <= |bytes|
    ensures |m + bytes[..p]| % 64 == 0 && m + bytes[..p] + bytes[p..p + 64] == m + bytes[..p + 64]
  {
    Whole(|m|, p);
    assert |m + bytes[..p]| == |m| + p;
    assert m + bytes[..p] + bytes[p..p + 64] == m + bytes[..p + 64];
  }

  lemma Taken(h: Compressor, m: seq<Byte>, bytes: seq<Byte>, p: nat)
    requires |m| % 64 == 0 && p % 64 == 0 && p + 64 <= |bytes|
    ensures Fold(h, INITIAL, m + bytes[..p + 64]) == h(Fold(h, INITIAL, m + bytes[..p]), bytes[p..p + 64])
  {
    Extended(m, bytes, p);
    FoldOne(h, INITIAL, m + bytes[..p], bytes[p..p + 64]);
  }

  class Md5 {
    var a: Word
    var b: Word
    var c: Word
    var d: Word
    var total0: Constant
    var total1: Constant
    var bufLen: nat
    const buffer: array<Byte>
    /** The bytes already processed; the rest of the message is in the buffer. */
    ghost var taken: seq<Byte>

    ghost function Message(): seq<Byte>
      reads this, buffer
      requires bufLen <= buffer.Length
    {
      taken + buffer[..bufLen]
    }

    ghost predicate Valid(h: Compressor)
      reads this, buffer
    {
      IsCompress(h) && buffer.Length == 128 && bufLen <= 64 && Processed(h) && Counts(total0, total1, |taken|)
    }

    ghost predicate Processed(h: Compressor)
      reads this
    {
      |taken| % 64 == 0 && Chain(a, b, c, d) == Fold(h, INITIAL, taken)
    }

    /** Everything the functions look at is the same. */
    predicate SameState(other: Md5)
      requires bufLen <= buffer.Length && other.bufLen <= other.buffer.Length
      reads this, buffer, other, other.buffer
    {
      && a == other.a && b == other.b && c == other.c && d == other.d
      && total0 == other.total0 && total1 == other.total1
      && buffer[..bufLen] == other.buffer[..other.bufLen]
    }

    constructor (ghost h: Compressor)
      requires IsCompress(h)
      ensures Valid(h) && Message() == [] && bufLen == 0 && fresh(buffer)
    {
      var s := INITIAL;
      FoldNothing(h, s);
      a, b, c, d := s.a, s.b, s.c, s.d;
      total0, total1 := 0, 0;
      bufLen := 0;
      buffer := new Byte[128];
      taken := [];
    }

    /** `process_block`, on whole blocks, as its callers use it. */
    method ProcessBlock(ghost h: Compressor, ghost n: nat, bytes: seq<Byte>)
      requires IsCompress(h) && Processed(h) && |bytes| % 64 == 0 && |bytes| < 0x1_0000_0000
        && Counts(total0, total1, n)
      modifies this`a, this`b, this`c, this`d, this`total0, this`total1, this`taken
      ensures Processed(h) && taken == old(taken) + bytes && Counts(total0, total1, n + |bytes|)
    {
      total0, total1 := AddCount(total0, total1, |bytes|, n);
      var correct := new Word[16];
      var p := 0;
      var s := Chain(a, b, c, d);
      assert taken + bytes[..0] == taken;
      while p < |bytes|
        invariant p <= |bytes| && p % 64 == 0
        invariant s == Fold(h, INITIAL, taken + bytes[..p])
        modifies correct
      {
        OneMore(p, |bytes|);
        var block := bytes[p..p + 64];
        var e := FourRounds(h, block, correct, s);
        Taken(h, taken, bytes, p);
        s := Saved(s, e);
        p := p + 64;
      }
      Whole(|taken|, |bytes|);
      assert bytes[..p] == bytes;
      taken := taken + bytes;
      a, b, c, d := s.a, s.b, s.c, s.d;
    }

    /** `memcpy` into the buffer. */
    method Copy(at: nat, bytes: seq<Byte>)
      requires at + |bytes| <= buffer.Length
      modifies buffer
      ensures buffer[..at + |bytes|] == old(buffer[..at]) + bytes
    {
      forall i | 0 <= i < |bytes| {
        buffer[at + i] := bytes[i];
      }
      assert buffer[..at] == old(buffer[..at]);
      assert buffer[at..at + |bytes|] == bytes;
      assert buffer[..at + |bytes|] == buffer[..at] + buffer[at..at + |bytes|];
    }

    /**
     First part of `md5_process`: fill the buffer, and empty it once it holds more than a block.
     `None` when the copy would run past the end of the buffer.
     */
    method TopUp(ghost h: Compressor, buf: seq<Byte>) returns (add: Option<nat>)
      requires Valid(h) && bufLen > 0 && |buf| < 0x1_0000_0000
      modifies this, buffer
      ensures add == if Wraps(old(bufLen), |buf|) then None else Some(Room(old(bufLen), |buf|))
      ensures Valid(h) && bufLen == if add.Some? then Filled(old(bufLen), |buf|) else old(bufLen)
      ensures Message() == old(Message()) + if add.Some? then buf[..add.value] else []
    {
      var inBlock := bufLen;
      var n := Added(inBlock, |buf|, buffer.Length);
      if inBlock + n > buffer.Length {
        return None;
      }
      Copy(inBlock, buf[..n]);
      bufLen := bufLen + n;
      if bufLen > 64 {
        Flush(h);
      }
      return Some(n);
    }

    method Flush(ghost h: Compressor)
      requires IsCompress(h) && Processed(h) && Counts(total0, total1, |taken|) && buffer.Length == 128
        && 64 < bufLen <= 128
      modifies this, buffer
      ensures Valid(h) && bufLen == Excess(old(bufLen)) && Message() == old(Message())
    {
      var whole := bufLen / 64 * 64;
      WholePart(bufLen);
      var rest := buffer[whole..bufLen];
      assert buffer[..bufLen] == buffer[..whole] + rest;
      ProcessBlock(h, |taken|, buffer[..whole]);
      bufLen := bufLen % 64;
      Copy(0, rest);
    }

    /** `md5_process`, on any chunk; it fails where its first copy would run past the buffer. */
    method Process(ghost h: Compressor, buf: seq<Byte>) returns (ok: bool)
      requires Valid(h) && |buf| < 0x1_0000_0000
      modifies this, buffer
      ensures ok <==> !Wraps(old(bufLen), |buf|)
      ensures Valid(h) && bufLen == if ok then Buffered(old(bufLen), |buf|) else old(bufLen)
      ensures Message() == old(Message()) + if ok then buf else []
    {
      KeptIs(bufLen, |buf|);
      var from := 0;
      if bufLen > 0 {
        var add := TopUp(h, buf);
        if add == None {
          return false;
        }
        from := add.value;
      }
      assert buf == buf[..from] + buf[from..];
      if from < |buf| {
        Straight(h, buf[from..]);
      }
      return true;
    }

    /** The chunks are all that has been fed. */
    ghost predicate HasFed(h: Compressor, chunks: seq<seq<Byte>>)
      reads this, buffer
    {
      Valid(h) && Message() == Joined(chunks) && bufLen == Level(chunks) && Accepted(chunks)
    }

    method Feed(ghost h: Compressor, ghost chunks: seq<seq<Byte>>, chunk: seq<Byte>) returns (ok: bool)
      requires HasFed(h, chunks) && |chunk| < 0x1_0000_0000
      modifies this, buffer
      ensures ok <==> Accepted(chunks + [chunk])
      ensures ok ==> HasFed(h, chunks + [chunk])
    {
      ok := Process(h, chunk);
      assert (chunks + [chunk])[..|chunks|] == chunks;
    }

    /** Second part: complete blocks straight from the caller, the remaining bytes into the buffer. */
    method Straight(ghost h: Compressor, buf: seq<Byte>)
      requires Valid(h) && bufLen == 0 && 0 < |buf| < 0x1_0000_0000
      modifies this, buffer
      ensures Valid(h) && Message() == old(Message()) + buf
      ensures bufLen == if |buf| > 64 then Excess(|buf|) else |buf|
    {
      var from, len := 0, |buf|;
      if len > 64 {
        from := WholeBlocks(h, buf);
        len := len % 64;
        ExcessIs(|buf|);
      }
      assert buf == buf[..from] + buf[from..];
      if len > 0 {
        Keep(h, buf[from..]);
      }
    }

    method WholeBlocks(ghost h: Compressor, buf: seq<Byte>) returns (from: nat)
      requires Valid(h) && bufLen == 0 && |buf| < 0x1_0000_0000
      modifies this`a, this`b, this`c, this`d, this`total0, this`total1, this`taken
      ensures Valid(h) && from <= |buf| && |buf| - from == Excess(|buf|)
      ensures Message() == old(Message()) + buf[..from]
    {
      from := |buf| / 64 * 64;
      WholePart(|buf|);
      ProcessBlock(h, |taken|, buf[..from]);
    }

    method Keep(ghost h: Compressor, rest: seq<Byte>)
      requires Valid(h) && bufLen == 0 && |rest| <= 64
      modifies this`bufLen, buffer
      ensures Valid(h) && bufLen == |rest| && Message() == old(Message()) + rest
    {
      Copy(0, rest);
      bufLen := |rest|;
      assert buffer[..bufLen] == rest;
    }

    /** `md5_finish`: pad, append the length, process what is left, and hand out the words. */
    method Finish(ghost h: Compressor) returns (signature: seq<Byte>)
      requires Valid(h)
      modifies this, buffer
      ensures signature == Digest(h, old(Message()))
    {
      ghost var m := Message();
      var bytes := bufLen;
      total0, total1 := AddCount(total0, total1, bytes, |taken|);
      var pad: int := 64 - 8 - bytes;
      if pad <= 0 {
        pad := pad + 64;
      }
      Padding(|taken|, bytes, pad);
      Close(m, bytes, pad);
      bytes := bytes + pad + 8;
      ProcessBlock(h, |m|, buffer[..bytes]);
      signature := Output(Chain(a, b, c, d));
    }

    /** The padding and the two length words, written into the buffer. */
    method Close(ghost m: seq<Byte>, bytes: nat, pad: nat)
      requires buffer.Length == 128 && bytes + pad + 8 <= 128 && Counts(total0, total1, |m|)
      requires m == taken + buffer[..bytes] && pad == |Filler(|m|)|
      modifies buffer
      ensures taken + buffer[..bytes + pad + 8] == Padded(m)
    {
      var lowMask, highMask := 0x1FFF_FFFF, 0xE000_0000;
      LengthWords(total0, total1, |m|, lowMask, highMask);
      ghost var text := buffer[..bytes];
      Copy(bytes, [0x80] + Zeros(pad - 1));
      assert [0x80] + Zeros(pad - 1) == Filler(|m|);
      var low := Bytes(WordOf(ShiftLeft(And(total0, lowMask), 3)));
      Copy(bytes + pad, low);
      var high := Bytes(WordOf(Or(ShiftLeft(total1, 3), Down(And(total0, highMask), 29))));
      Copy(bytes + pad + 4, high);
      Ending(taken, text, low, high, m);
    }
  }

  lemma Ending(taken: seq<Byte>, text: seq<Byte>, low: seq<Byte>, high: seq<Byte>, m: seq<Byte>)
    requires m == taken + text && low + high == Length(|m|)
    ensures taken + (text + Filler(|m|) + low + high) == Padded(m)
  {
    assert text + Filler(|m|) + low + high == text + Filler(|m|) + (low + high);
    assert taken + (text + Filler(|m|) + Length(|m|)) == taken + text + Filler(|m|) + Length(|m|);
  }

  /** The pad the code computes is the one of the RFC. */
  lemma Padding(taken: nat, bytes: nat, pad: nat)
    requires taken % 64 == 0 && bytes <= 64 && pad == if bytes < 56 then 56 - bytes else 120 - bytes
    ensures pad == |Filler(taken + bytes)| && (bytes + pad + 8) % 64 == 0 && bytes + pad + 8 <= 128
  {
  }

  /** The sum of the bytes in the buffer and those to come is too large for a word. */
  predicate Wraps(b: nat, n: nat) {
    b > 0 && b + n >= 0x1_0000_0000
  }

  /**
   The 32-bit sum decides like the true one if and only if it does not wrap; where it wraps, all
   bytes are to be copied, and they do not fit.
   */
  lemma TopUpTest(b: nat, n: Constant)
    requires 0 < b <= 64
    ensures ((b + n) % 0x1_0000_0000 > 128 <==> b + n > 128) <==> !Wraps(b, n)
    ensures Wraps(b, n) <==> (b + n) % 0x1_0000_0000 <= 128 < b + n
  {
    if b + n < 0x1_0000_0000 {
      assert (b + n) % 0x1_0000_0000 == b + n;
    } else {
      assert (b + n) % 0x1_0000_0000 == b + n - 0x1_0000_0000;
    }
  }

  /** The bytes the first part takes. */
  method Added(inBlock: nat, len: Constant, size: nat) returns (add: nat)
    requires 0 < inBlock <= 64 && size == 128
    ensures add == if Wraps(inBlock, len) then len else Room(inBlock, len)
    ensures inBlock + add > 128 <==> Wraps(inBlock, len)
  {
    TopUpTest(inBlock, len);
    if (inBlock + len) % 0x1_0000_0000 > size {
      add := size - inBlock;
    } else {
      add := len;
    }
  }

  /** The bytes that still go into the buffer, and what it then keeps. */
  function Room(b: nat, n: nat): nat
    requires b <= 128
  {
    if b + n > 128 then 128 - b else n
  }

  function Filled(b: nat, n: nat): nat
    requires b <= 128
  {
    var t := b + Room(b, n);
    if t > 64 then Excess(t) else t
  }

  /** The fill level after a chunk of `n` bytes, as the two parts of the code leave it. */
  function Kept(b: nat, n: nat): nat
    requires b <= 64
  {
    if b > 0 && Room(b, n) == n then Filled(b, n)
    else
      var left := if b > 0 then n - Room(b, n) else n;
      if left > 64 then Excess(left) else left
  }

  /** The chunk brings the buffer to a full block that stays there. */
  predicate Fills(b: nat, n: nat) {
    b + n == 64 || (b > 0 && b + n == 192)
  }

  /** What exceeds whole blocks, but for the full block that may stay. */
  function Buffered(b: nat, n: nat): (r: nat)
    ensures r <= 64
  {
    if Fills(b, n) then 64 else Excess(b + n)
  }

  lemma KeptIs(b: nat, n: nat)
    requires b <= 64
    ensures Kept(b, n) == Buffered(b, n)
    ensures Kept(b, n) == 64 <==> Fills(b, n)
  {
    if b > 0 && b + n > 128 {
      assert Excess(b + n) == Excess(b + n - 64) == Excess(b + n - 128);
    }
  }

  /** The fill level after one chunk after the other. */
  function Level(chunks: seq<seq<Byte>>): (r: nat)
    ensures r <= 64
  {
    if chunks == [] then 0 else Buffered(Level(chunks[..|chunks| - 1]), |chunks[|chunks| - 1]|)
  }

  /** The last chunk leaves a full block in the buffer. */
  predicate EndsFull(chunks: seq<seq<Byte>>) {
    chunks != [] && Fills(Level(chunks[..|chunks| - 1]), |chunks[|chunks| - 1]|)
  }

  lemma {:induction false} LevelIs(chunks: seq<seq<Byte>>)
    ensures Level(chunks) == if EndsFull(chunks) then 64 else Excess(|Joined(chunks)|)
    ensures EndsFull(chunks) ==> Excess(|Joined(chunks)|) == 0
    decreases |chunks|
  {
    if chunks != [] {
      var before, n := chunks[..|chunks| - 1], |chunks[|chunks| - 1]|;
      LevelIs(before);
      ExcessAdds(|Joined(before)|, n);
      Refilled(Level(before), n, Excess(|Joined(before)|));
    }
  }

  /** A full block that stays makes no difference to what exceeds whole blocks. */
  lemma Refilled(b: nat, n: nat, r: nat)
    requires r < 64 && (b == r || (b == 64 && r == 0))
    ensures Excess(b + n) == Excess(r + n) && (Fills(b, n) ==> Excess(b + n) == 0)
  {
    if b == 64 {
      assert Excess(64 + n) == Excess(n);
    }
    assert Excess(192) == Excess(128) == Excess(64) == Excess(0);
  }

  /**
   Two ways to feed the same message leave the same fill level if and only if its length is no
   multiple of the block size, or both end with a full block in the buffer, or neither does.
   */
  lemma SameLevelIff(one: seq<seq<Byte>>, two: seq<seq<Byte>>)
    requires Joined(one) == Joined(two)
    ensures Level(one) == Level(two) <==> |Joined(one)| % 64 != 0 || (EndsFull(one) <==> EndsFull(two))
  {
    LevelIs(one);
    LevelIs(two);
    ExcessIs(|Joined(one)|);
  }

  lemma CountsDetermine(t0: Constant, t1: Constant, u0: Constant, u1: Constant, n: nat)
    requires Counts(t0, t1, n) && Counts(u0, u1, n)
    ensures t0 == u0 && t1 == u1
  {
  }

  /** The fill level is all that two states with the same message can differ in. */
  lemma SameStateIff(h: Compressor, one: Md5, two: Md5)
    requires one.Valid(h) && two.Valid(h) && one.Message() == two.Message()
    ensures one.SameState(two) <==> one.bufLen == two.bufLen
  {
    if one.bufLen == two.bufLen {
      assert one.Message()[..|one.taken|] == one.taken && two.Message()[..|two.taken|] == two.taken;
      assert |one.taken| == |two.taken|;
      assert one.Message()[|one.taken|..] == one.buffer[..one.bufLen];
      assert two.Message()[|two.taken|..] == two.buffer[..two.bufLen];
      CountsDetermine(one.total0, one.total1, two.total0, two.total1, |one.taken|);
    }
  }

  /**
   So two contexts that were fed one message are in the same state if and only if its length is no
   multiple of the block size, or both ways of feeding it end with a full block, or neither does.
   */
  lemma SameStateByChunks(h: Compressor, one: Md5, two: Md5, a: seq<seq<Byte>>, b: seq<seq<Byte>>)
    requires one.HasFed(h, a) && two.HasFed(h, b) && Joined(a) == Joined(b)
    ensures one.SameState(two) <==> |Joined(a)| % 64 != 0 || (EndsFull(a) <==> EndsFull(b))
  {
    SameStateIff(h, one, two);
    SameLevelIff(a, b);
  }

  lemma Levels(n: nat, k: nat)
    requires n == 128 && k == 65
    ensures Buffered(0, n) == 0 && Buffered(Buffered(0, k), n - k) == 64
  {
  }

  /** Any 128 bytes at once leave an empty buffer, the first 65 and then 63 a full block. */
  method StateIsNotCanonical(ghost h: Compressor, m: seq<Byte>) returns (one: Md5, two: Md5)
    requires IsCompress(h) && |m| == 128
    ensures one.Valid(h) && two.Valid(h) && one.Message() == two.Message() == m
    ensures one.bufLen == 0 && two.bufLen == 64 && !one.SameState(two)
  {
    Levels(|m|, 65);
    one := new Md5(h);
    var ok := one.Process(h, m);
    two := new Md5(h);
    var first, second := m[..65], m[65..];
    assert m == first + second;
    ok := two.Process(h, first);
    ok := two.Process(h, second);
  }

  /** The starting values of the context are added. */
  method Saved(s: Chain, e: Chain) returns (r: Chain)
    ensures r == AddChain(s, e)
  {
    var A := Plus(e.a, s.a);
    var B := Plus(e.b, s.b);
    var C := Plus(e.c, s.c);
    var D := Plus(e.d, s.d);
    r := Chain(A, B, C, D);
  }

  method Rounds(ghost op: Operation, ghost x: seq<Word>, block: seq<Byte>, correct: array<Word>, s: Chain)
      returns (e: Chain)
    requires IsOp(op) && |block| == 64 && IsWords(x, block) && correct.Length == 16
    modifies correct
    ensures e == Steps(op, 4 * |x|, s, x)
  {
    e := FirstRound(op, x, block, correct, s);
    e := SecondRound(op, |x|, s, correct, e);
    e := ThirdRound(op, 2 * |x|, s, correct, e);
    e := FourthRound(op, 3 * |x|, s, correct, e);
  }

  method FourRounds(ghost h: Compressor, block: seq<Byte>, correct: array<Word>, s: Chain) returns (e: Chain)
    requires IsCompress(h) && |block| == 64 && correct.Length == 16
    modifies correct
    ensures AddChain(s, e) == h(s, block)
  {
    e := Rounds(Op, Words(block), block, correct, s);
    assert AddChain(s, e) == Compress(Op, s, block);
  }

  /** `md5_buffer`. */
  method Buffer(buf: seq<Byte>) returns (signature: seq<Byte>)
    requires |buf| < 0x1_0000_0000
    ensures signature == Md5Of(buf)
  {
    ghost var h := TheCompressor();
    var md5 := new Md5(h);
    var ok := md5.Process(h, buf);
    assert md5.Message() == buf;
    signature := md5.Finish(h);
  }

  /** No chunk, at the fill level it meets, makes the sum of the first test wrap. */
  predicate Accepted(chunks: seq<seq<Byte>>) {
    chunks == [] ||
    (Accepted(chunks[..|chunks| - 1]) && !Wraps(Level(chunks[..|chunks| - 1]), |chunks[|chunks| - 1]|))
  }

  lemma {:induction false} AcceptedSoFar(chunks: seq<seq<Byte>>, i: nat)
    requires Accepted(chunks) && i <= |chunks|
    ensures Accepted(chunks[..i])
    decreases |chunks|
  {
    if i < |chunks| {
      AcceptedSoFar(chunks[..|chunks| - 1], i);
      assert chunks[..|chunks| - 1][..i] == chunks[..i];
    } else {
      assert chunks[..i] == chunks;
    }
  }

  /**
   Progressive use: every split of every message gives the digest of the whole message, unless a
   chunk makes that sum wrap.
   */
  method Chunked(chunks: seq<seq<Byte>>) returns (signature: Option<seq<Byte>>)
    requires forall i :: 0 <= i < |chunks| ==> |chunks[i]| < 0x1_0000_0000
    ensures signature == if Accepted(chunks) then Some(Md5Of(Joined(chunks))) else None
  {
    ghost var h := TheCompressor();
    var md5 := new Md5(h);
    var ok := FeedAll(h, md5, chunks);
    if !ok {
      return None;
    }
    var digest := md5.Finish(h);
    return Some(digest);
  }

  method FeedAll(ghost h: Compressor, md5: Md5, chunks: seq<seq<Byte>>) returns (ok: bool)
    requires md5.Valid(h) && md5.Message() == [] && md5.bufLen == 0
    requires forall i :: 0 <= i < |chunks| ==> |chunks[i]| < 0x1_0000_0000
    modifies md5, md5.buffer
    ensures ok <==> Accepted(chunks)
    ensures ok ==> md5.HasFed(h, chunks)
  {
    var i := 0;
    while i < |chunks|
      invariant i <= |chunks| && md5.HasFed(h, chunks[..i])
    {
      OneChunkMore(chunks, i);
      ok := md5.Feed(h, chunks[..i], chunks[i]);
      if !ok {
        if Accepted(chunks) {
          AcceptedSoFar(chunks, i + 1);
        }
        return;
      }
      i := i + 1;
    }
    assert chunks[..i] == chunks;
    return true;
  }

  lemma OneChunkMore(chunks: seq<seq<Byte>>, i: nat)
    requires i < |chunks|
    ensures chunks[..i + 1] == chunks[..i] + [chunks[i]]
  {
  }

  function Joined(chunks: seq<seq<Byte>>): seq<Byte> {
    if chunks == [] then [] else Joined(chunks[..|chunks| - 1]) + chunks[|chunks| - 1]
  }

  ghost function TheCompressor(): (h: Compressor)
    ensures IsCompress(h)
  {
    (s: Chain, block: seq<Byte>) => if |block| == 64 then Compress(Op, s, block) else s
  }

  /** The digest of RFC 1321. */
  ghost function Md5Of(m: seq<Byte>): seq<Byte> {
    Digest(TheCompressor(), m)
  }
}
