/** The log buffer: a growing buffer with an optional limit, against the unbounded text it stands for. */
module LogBuffer {

  // ---------- the simple form ----------

  /** The truncate string over the last bytes of a full buffer. */
  function Overlay(s: string, t: string): (r: string)
    ensures |r| == |s|
  {
    var k := if |t| <= |s| then |t| else |s|;
    s[..|s| - k] + t[..k]
  }

  /** What a limit of `max` bytes leaves of a text; one byte is kept for the end mark. */
  function Limited(max: nat, t: string, s: string): string {
    if max == 0 || |s| < max then s else Overlay(s[..max - 1], t)
  }

  function Overflows(max: nat, s: string): bool {
    max != 0 && |s| >= max
  }

  lemma OverlayTwice(s: string, t: string)
    ensures Overlay(Overlay(s, t), t) == Overlay(s, t)
  {
    var k := if |t| <= |s| then |t| else |s|;
    assert Overlay(s, t)[..|s| - k] == s[..|s| - k];
  }

  function Concat(xs: seq<string>): string {
    if |xs| == 0 then "" else Concat(xs[..|xs| - 1]) + xs[|xs| - 1]
  }

  /** The text in the buffer after one output after the other. */
  function Written(max: nat, t: string, xs: seq<string>): string {
    if |xs| == 0 then "" else Limited(max, t, Written(max, t, xs[..|xs| - 1]) + xs[|xs| - 1])
  }

  /** One output at a time, or all at once and then cut: the bounded buffer holds the same. */
  lemma {:induction false} WrittenIsLimited(max: nat, t: string, xs: seq<string>)
    ensures Written(max, t, xs) == Limited(max, t, Concat(xs))
    decreases |xs|
  {
    if |xs| > 0 {
      var before, x := xs[..|xs| - 1], xs[|xs| - 1];
      WrittenIsLimited(max, t, before);
      var c, w := Concat(before), Written(max, t, before);
      if Overflows(max, c) {
        var p := c[..max - 1];
        assert (c + x)[..max - 1] == p;
        OverlayTwice(p, t);
        if |w + x| >= max {
          assert (w + x)[..max - 1] == w;
        } else {
          assert x == "" && w + x == w;
        }
      }
    }
  }

  // ---------- digits ----------

  const HEX: string := "0123456789abcdef"

  function DigitChar(d: nat): char
    requires d < 16
  {
    HEX[d]
  }

  function Over(hex: bool, n: nat): nat {
    if hex then n / 16 else n / 10
  }

  function Rest(hex: bool, n: nat): nat {
    if hex then n % 16 else n % 10
  }

  function Times(hex: bool, n: nat): nat {
    if hex then n * 16 else n * 10
  }

  /** The digits of a number, without leading zeros. */
  function Digits(hex: bool, n: nat): (s: string)
    ensures |s| > 0
    decreases n
  {
    if Over(hex, n) == 0 then [DigitChar(Rest(hex, n))] else Digits(hex, Over(hex, n)) + [DigitChar(Rest(hex, n))]
  }

  function DigitValue(c: char): nat {
    if '0' <= c <= '9' then c as int - '0' as int else if 'a' <= c <= 'f' then c as int - 'a' as int + 10 else 0
  }

  function Value(hex: bool, s: string): nat {
    if |s| == 0 then 0 else Times(hex, Value(hex, s[..|s| - 1])) + DigitValue(s[|s| - 1])
  }

  lemma CharValue(d: nat)
    requires d < 16
    ensures DigitValue(DigitChar(d)) == d && (DigitChar(d) == '0' <==> d == 0)
  {
  }

  lemma LastDigit(hex: bool, s: string, c: char)
    ensures Value(hex, s + [c]) == Times(hex, Value(hex, s)) + DigitValue(c)
  {
    assert (s + [c])[..|s|] == s;
  }

  /** The digits name the number, and only zero starts with a zero. */
  lemma {:induction false} DigitsName(hex: bool, n: nat)
    ensures Value(hex, Digits(hex, n)) == n
    ensures Digits(hex, n)[0] == '0' <==> n == 0
    decreases n
  {
    var q, d := Over(hex, n), Rest(hex, n);
    CharValue(d);
    if q == 0 {
      LastDigit(hex, "", DigitChar(d));
      assert "" + [DigitChar(d)] == [DigitChar(d)];
    } else {
      DigitsName(hex, q);
      LastDigit(hex, Digits(hex, q), DigitChar(d));
    }
  }

  function Power(hex: bool, k: nat): nat {
    if k == 0 then 1 else Times(hex, Power(hex, k - 1))
  }

  /** A number below the k-th power of the base has at most k digits. */
  lemma {:induction false} DigitsBound(hex: bool, n: nat, k: nat)
    requires k > 0 && n < Power(hex, k)
    ensures |Digits(hex, n)| <= k
    decreases k
  {
    assert Power(hex, k) == Times(hex, Power(hex, k - 1)) && Power(hex, 0) == 1;
    if Over(hex, n) > 0 && k > 1 {
      DigitsBound(hex, Over(hex, n), k - 1);
    }
  }

  // ---------- the buffer ----------

  datatype Rc = Ok | Full

  /** What the five writing functions of the buffer are called with. */
  datatype Output =
    | Plain(str: string)
    | Fitted(source: string, leftAdjust: bool, inWidth: nat, outWidth: nat)
    | Dec32(n: nat, width: nat)
    | Dec64(n: nat, width: nat)
    | Hex(n: nat, width: nat)

  predicate InRange(o: Output) {
    match o
    case Dec32(n, _) => n < 0x1_0000_0000
    case Dec64(n, _) => n < 0x1_0000_0000_0000_0000
    case Hex(n, _) => n < 0x1_0000_0000
    case _ => true
  }

  predicate AllInRange(outs: seq<Output>) {
    forall i :: 0 <= i < |outs| ==> InRange(outs[i])
  }

  /** The text an output stands for, whatever the room. */
  function Image(o: Output): string {
    match o
    case Plain(str) => str
    case Fitted(source, leftAdjust, inWidth, outWidth) => Adjusted(source, leftAdjust, inWidth, outWidth)
    case Dec32(n, width) => Padded(Digits(false, n), width)
    case Dec64(n, width) => Padded(Digits(false, n), width)
    case Hex(n, width) => Padded(Digits(true, n), width)
  }

  /** The function as a value, so that a proof sees no more of it than its name. */
  ghost predicate IsImage(image: Output -> string) {
    forall o: Output {:trigger Image(o)} :: image(o) == Image(o)
  }

  function Images(outs: seq<Output>): (r: seq<string>)
    ensures |r| == |outs| && forall i :: 0 <= i < |outs| ==> r[i] == Image(outs[i])
  {
    seq(|outs|, i requires 0 <= i < |outs| => Image(outs[i]))
  }

  class Buffer {
    var data: array<char>
    var tail: nat
    const sizeMax: nat
    var sizeReal: nat
    const truncate: string
    /** The bytes in front of the tail. */
    ghost var text: string

    ghost predicate Valid()
      reads this, data
    {
      && data.Length == sizeReal && tail <= End() && sizeReal > 0 && (sizeMax != 0 ==> sizeReal <= sizeMax)
      && text == data[..tail]
    }

    function End(): int
      reads this
    {
      sizeReal - 1
    }

    /** `zlog_buf_new`, where the sizes are allowed. */
    constructor (sizeMin: nat, max: nat, truncateStr: string)
      requires sizeMin > 0 && (max == 0 || sizeMin <= max)
      ensures Valid() && text == "" && sizeMax == max && truncate == truncateStr && fresh(data)
    {
      sizeMax, truncate := max, truncateStr;
      sizeReal := sizeMin;
      data := new char[sizeMin](i => '\0');
      tail := 0;
      text := "";
    }

    /** `zlog_buf_restart` */
    method Restart()
      requires Valid()
      modifies this`tail, this`text
      ensures Valid() && text == ""
    {
      tail := 0;
      text := "";
    }

    /** `memcpy` behind the tail. */
    method Store(at: nat, s: string)
      requires Valid() && tail <= at && at + |s| <= data.Length
      modifies data
      ensures Valid() && data[at..at + |s|] == s
      ensures forall i :: 0 <= i < data.Length && !(at <= i < at + |s|) ==> data[i] == old(data[i])
    {
      forall i | 0 <= i < |s| {
        data[at + i] := s[i];
      }
      assert text == data[..tail];
    }

    /** The bytes stored behind the tail now belong to the text. */
    method Advance(n: nat, ghost s: string)
      requires Valid() && n == |s| && tail + n <= End() && data[tail..tail + n] == s
      modifies this`tail, this`text
      ensures Valid() && text == old(text) + s && tail == old(tail) + |s|
    {
      assert data[..tail + |s|] == data[..tail] + data[tail..tail + |s|];
      tail := tail + n;
      text := text + s;
    }

    /** `zlog_buf_resize` */
    method Resize(increment: nat) returns (rc: Rc)
      requires Valid() && increment > 0
      modifies this`data, this`sizeReal
      ensures Valid() && (data == old(data) || fresh(data)) && sizeReal >= old(sizeReal)
      ensures rc == Ok ==> sizeReal >= old(sizeReal) + increment
      ensures rc == Full ==> sizeMax != 0 && sizeReal == sizeMax < old(sizeReal) + increment
    {
      rc := Ok;
      if sizeMax != 0 && sizeReal >= sizeMax {
        return Full;
      }
      var newSize;
      if sizeMax == 0 {
        newSize := sizeReal + increment + increment / 2;
      } else if sizeReal + increment <= sizeMax {
        newSize := sizeReal + increment;
      } else {
        newSize := sizeMax;
        rc := Full;
      }
      var p := new char[newSize](i requires 0 <= i < newSize reads this, data => if i < data.Length then data[i]
          else '\0');
      assert p[..tail] == data[..tail];
      data := p;
      sizeReal := newSize;
    }

    /** `zlog_buf_truncate` */
    method Truncate()
      requires Valid()
      modifies data, this`text
      ensures Valid() && text == Overlay(old(text), truncate)
    {
      if |truncate| == 0 {
        assert Overlay(text, truncate) == text;
        return;
      }
      var p := tail - |truncate|;
      if p < 0 {
        p := 0;
      }
      var len := tail - p;
      forall i | 0 <= i < len {
        data[p + i] := truncate[i];
      }
      text := Overlay(text, truncate);
      assert data[..tail] == text;
    }

    /** The test in front of every output: resize when the bytes do not fit. */
    method Room(len: nat) returns (rc: Rc)
      requires Valid()
      modifies this`data, this`sizeReal
      ensures Valid() && (data == old(data) || fresh(data))
      ensures rc == Ok ==> tail + len <= End() && (sizeMax != 0 ==> tail + len < sizeMax)
      ensures rc == Full ==> sizeMax != 0 && sizeReal == sizeMax && tail + len > End()
    {
      rc := Ok;
      if tail + len > End() {
        rc := Resize(len - (End() - tail));
      }
    }

    /** `zlog_buf_append` */
    method Append(str: string) returns (rc: Rc)
      requires Valid()
      modifies this, data
      ensures Valid() && (data == old(data) || fresh(data))
      ensures text == Limited(sizeMax, truncate, old(text) + str)
      ensures rc == Full <==> Overflows(sizeMax, old(text) + str)
    {
      Outcome(sizeMax, truncate, text, str);
      rc := Room(|str|);
      if rc == Full {
        AppendCut(str);
      } else {
        Store(tail, str);
        Advance(|str|, str);
      }
    }

    /** The limit is reached: what still fits, and the truncate string over its end. */
    method AppendCut(str: string)
      requires Valid() && tail + |str| > End()
      modifies data, this`tail, this`text
      ensures Valid() && text == Overlay(old(text) + str[..End() - old(tail)], truncate)
    {
      var left := End() - tail;
      Store(tail, str[..left]);
      Advance(left, str[..left]);
      Truncate();
    }

    /** Two parts, one behind the other. */
    method StorePair(first: string, second: string)
      requires Valid() && tail + |first| + |second| <= End()
      modifies data, this`tail, this`text
      ensures Valid() && text == old(text) + (first + second)
    {
      if |first| > 0 {
        Store(tail, first);
      }
      Store(tail + |first|, second);
      assert data[tail..tail + |first| + |second|] == first + second by {
        assert data[tail..tail + |first|] == first;
        assert data[tail + |first|..tail + |first| + |second|] == second;
      }
      Advance(|first| + |second|, first + second);
    }

    /** `zlog_buf_adjust_append` */
    method AdjustAppend(str: string, leftAdjust: bool, inWidth: nat, outWidth: nat) returns (rc: Rc)
      requires Valid()
      modifies this, data
      ensures Valid() && (data == old(data) || fresh(data))
      ensures text == Limited(sizeMax, truncate, old(text) + Adjusted(str, leftAdjust, inWidth, outWidth))
      ensures rc == Full <==> Overflows(sizeMax, old(text) + Adjusted(str, leftAdjust, inWidth, outWidth))
    {
      var sourceLen := if outWidth == 0 || |str| < outWidth then |str| else outWidth;
      var appendLen, spaceLen := sourceLen, 0;
      if !(inWidth == 0 || sourceLen >= inWidth) {
        appendLen, spaceLen := inWidth, inWidth - sourceLen;
      }
      AdjustedIs(str, leftAdjust, inWidth, outWidth, sourceLen, spaceLen);
      rc := AdjustOut(str[..sourceLen], spaceLen, leftAdjust, appendLen);
    }

    /** The second part of `zlog_buf_adjust_append`. */
    method AdjustOut(source: string, spaceLen: nat, leftAdjust: bool, appendLen: nat) returns (rc: Rc)
      requires Valid() && appendLen == |source| + spaceLen
      modifies this, data
      ensures Valid() && (data == old(data) || fresh(data))
      ensures text == Limited(sizeMax, truncate, old(text) + Laid(source, spaceLen, leftAdjust))
      ensures rc == Full <==> Overflows(sizeMax, old(text) + Laid(source, spaceLen, leftAdjust))
    {
      ghost var x := Laid(source, spaceLen, leftAdjust);
      assert |x| == appendLen;
      Outcome(sizeMax, truncate, text, x);
      rc := Room(appendLen);
      if rc == Full {
        LayTruncated(source, spaceLen, leftAdjust);
      } else {
        Lay(source, spaceLen, leftAdjust);
      }
    }

    method LayTruncated(source: string, spaces: nat, leftAdjust: bool)
      requires Valid() && tail + |source| + spaces > End()
      modifies data, this`tail, this`text
      ensures Valid() && text == Overlay(old(text) + Laid(source, spaces, leftAdjust)[..End() - old(tail)], truncate)
    {
      LayCut(source, spaces, leftAdjust);
      Truncate();
    }

    method Lay(source: string, spaces: nat, leftAdjust: bool)
      requires Valid() && tail + |source| + spaces <= End()
      modifies data, this`tail, this`text
      ensures Valid() && text == old(text) + Laid(source, spaces, leftAdjust)
    {
      if leftAdjust {
        StorePair(source, Fill(' ', spaces));
      } else {
        StorePair(Fill(' ', spaces), source);
      }
    }

    /** As much of the same as fits. */
    method LayCut(source: string, spaces: nat, leftAdjust: bool)
      requires Valid() && tail + |source| + spaces > End()
      modifies data, this`tail, this`text
      ensures Valid() && tail == End() && text == old(text) + Laid(source, spaces, leftAdjust)[..End() - old(tail)]
    {
      var appendLen, sourceLen, spaceLen := End() - tail, |source|, spaces;
      if leftAdjust {
        if sourceLen < appendLen {
          spaceLen := appendLen - sourceLen;
        } else {
          sourceLen, spaceLen := appendLen, 0;
        }
      } else {
        if spaceLen < appendLen {
          sourceLen := appendLen - spaceLen;
        } else {
          sourceLen, spaceLen := 0, appendLen;
        }
      }
      assert Laid(source[..sourceLen], spaceLen, leftAdjust) == Laid(source, spaces, leftAdjust)[..appendLen];
      Lay(source[..sourceLen], spaceLen, leftAdjust);
    }

    /** What the three printing functions do with their digits. */
    method Print(digits: string, width: nat) returns (rc: Rc)
      requires Valid()
      modifies this, data
      ensures Valid() && (data == old(data) || fresh(data))
      ensures text == Limited(sizeMax, truncate, old(text) + Padded(digits, width))
      ensures rc == Full <==> Overflows(sizeMax, old(text) + Padded(digits, width))
    {
      var numLen, zeroLen, outLen := |digits|, 0, |digits|;
      if width > numLen {
        zeroLen, outLen := width - numLen, width;
      }
      rc := PrintOut(digits, zeroLen, outLen);
    }

    method PrintOut(digits: string, zeroLen: nat, outLen: nat) returns (rc: Rc)
      requires Valid() && outLen == zeroLen + |digits|
      modifies this, data
      ensures Valid() && (data == old(data) || fresh(data))
      ensures text == Limited(sizeMax, truncate, old(text) + (Fill('0', zeroLen) + digits))
      ensures rc == Full <==> Overflows(sizeMax, old(text) + (Fill('0', zeroLen) + digits))
    {
      ghost var x := Fill('0', zeroLen) + digits;
      assert |x| == outLen;
      Outcome(sizeMax, truncate, text, x);
      rc := Room(outLen);
      if rc == Full {
        PrintTruncated(digits, zeroLen);
      } else {
        StorePair(Fill('0', zeroLen), digits);
      }
    }

    method PrintTruncated(digits: string, zeros: nat)
      requires Valid() && tail + zeros + |digits| > End()
      modifies data, this`tail, this`text
      ensures Valid() && text == Overlay(old(text) + (Fill('0', zeros) + digits)[..End() - old(tail)], truncate)
    {
      PrintCut(digits, zeros);
      Truncate();
    }

    method PrintCut(digits: string, zeros: nat)
      requires Valid() && tail + zeros + |digits| > End()
      modifies data, this`tail, this`text
      ensures Valid() && tail == End() && text == old(text) + (Fill('0', zeros) + digits)[..End() - old(tail)]
    {
      var left, zeroLen, numLen := End() - tail, zeros, 0;
      if left <= zeroLen {
        zeroLen := left;
      } else {
        numLen := left - zeroLen;
      }
      assert Fill('0', zeroLen) + digits[..numLen] == (Fill('0', zeros) + digits)[..left];
      StorePair(Fill('0', zeroLen), digits[..numLen]);
    }

    /** `zlog_buf_printf_dec32` */
    method PrintDec32(n: nat, width: nat) returns (rc: Rc)
      requires Valid() && n < 0x1_0000_0000
      modifies this, data
      ensures Valid() && (data == old(data) || fresh(data))
      ensures text == Limited(sizeMax, truncate, old(text) + Padded(Digits(false, n), width))
      ensures rc == Full <==> Overflows(sizeMax, old(text) + Padded(Digits(false, n), width))
    {
      PowersOfTen();
      DigitsBound(false, n, 10);
      var digits := SpellBackwards(false, n, INT32_LEN);
      rc := Print(digits, width);
    }

    /** `zlog_buf_printf_dec64` */
    method PrintDec64(n: nat, width: nat) returns (rc: Rc)
      requires Valid() && n < 0x1_0000_0000_0000_0000
      modifies this, data
      ensures Valid() && (data == old(data) || fresh(data))
      ensures text == Limited(sizeMax, truncate, old(text) + Padded(Digits(false, n), width))
      ensures rc == Full <==> Overflows(sizeMax, old(text) + Padded(Digits(false, n), width))
    {
      PowersOfTen();
      DigitsBound(false, n, 20);
      var digits := SpellBackwards(false, n, INT64_LEN);
      rc := Print(digits, width);
    }

    /** `zlog_buf_printf_hex` */
    method PrintHex(n: nat, width: nat) returns (rc: Rc)
      requires Valid() && n < 0x1_0000_0000
      modifies this, data
      ensures Valid() && (data == old(data) || fresh(data))
      ensures text == Limited(sizeMax, truncate, old(text) + Padded(Digits(true, n), width))
      ensures rc == Full <==> Overflows(sizeMax, old(text) + Padded(Digits(true, n), width))
    {
      DigitsBound(true, n, 8);
      var digits := SpellBackwards(true, n, INT32_LEN);
      rc := Print(digits, width);
    }

    method Put(ghost image: Output -> string, o: Output) returns (rc: Rc)
      requires Valid() && IsImage(image) && InRange(o)
      modifies this, data
      ensures Valid() && (data == old(data) || fresh(data))
      ensures text == Limited(sizeMax, truncate, old(text) + image(o))
      ensures rc == Full <==> Overflows(sizeMax, old(text) + image(o))
    {
      assert image(o) == Image(o);
      match o
      case Plain(str) => rc := Append(str);
      case Fitted(str, leftAdjust, inWidth, outWidth) => rc := AdjustAppend(str, leftAdjust, inWidth, outWidth);
      case Dec32(n, width) => rc := PrintDec32(n, width);
      case Dec64(n, width) => rc := PrintDec64(n, width);
      case Hex(n, width) => rc := PrintHex(n, width);
    }

    method PutAll(ghost image: Output -> string, outs: seq<Output>, ghost xs: seq<string>)
      requires Valid() && IsImage(image) && AllInRange(outs)
      requires |xs| == |outs| && forall i :: 0 <= i < |xs| ==> xs[i] == image(outs[i])
      modifies this, data
      ensures Valid() && (data == old(data) || fresh(data))
      ensures text == Limited(sizeMax, truncate, Concat(xs))
    {
      Restart();
      var i := 0;
      while i < |outs|
        invariant i <= |outs| && Valid() && (data == old(data) || fresh(data))
        invariant text == Written(sizeMax, truncate, xs[..i])
      {
        var rc := Put(image, outs[i]);
        assert xs[..i + 1][..i] == xs[..i];
        i := i + 1;
      }
      assert xs[..i] == xs;
      WrittenIsLimited(sizeMax, truncate, xs);
    }

    /** One message: the buffer starts anew, and outputs of all kinds follow one another. */
    method Message(outs: seq<Output>)
      requires Valid() && AllInRange(outs)
      modifies this, data
      ensures Valid() && (data == old(data) || fresh(data))
      ensures text == Limited(sizeMax, truncate, Concat(Images(outs)))
    {
      PutAll(o => Image(o), outs, Images(outs));
    }
  }

  /** The text fits, or as much of it as the limit allows was stored. */
  lemma Outcome(max: nat, t: string, was: string, x: string)
    ensures max == 0 || |was| + |x| < max ==> Limited(max, t, was + x) == was + x && !Overflows(max, was + x)
    ensures max != 0 && |was| < max <= |was| + |x| ==>
      Limited(max, t, was + x) == Overlay(was + x[..max - 1 - |was|], t) && Overflows(max, was + x)
  {
    if max != 0 && |was| < max <= |was| + |x| {
      assert (was + x)[..max - 1] == was + x[..max - 1 - |was|];
    }
  }

  lemma PowersOfTen()
    ensures Power(false, 10) == 10_000_000_000 && Power(false, 20) == 100_000_000_000_000_000_000
  {
    assert Power(false, 5) == 100_000;
    assert Power(false, 10) == 10_000_000_000;
    assert Power(false, 15) == 1_000_000_000_000_000;
  }

  const INT32_LEN: nat := 11
  const INT64_LEN: nat := 20

  function Fill(c: char, n: nat): (s: string)
    ensures |s| == n && forall i :: 0 <= i < n ==> s[i] == c
  {
    seq(n, i => c)
  }

  function Laid(source: string, spaces: nat, leftAdjust: bool): string {
    if leftAdjust then source + Fill(' ', spaces) else Fill(' ', spaces) + source
  }

  /** At most `outWidth` bytes of the string, in at least `inWidth`. */
  function Adjusted(str: string, leftAdjust: bool, inWidth: nat, outWidth: nat): string {
    var source := if outWidth == 0 || |str| < outWidth then str else str[..outWidth];
    Laid(source, if inWidth > |source| then inWidth - |source| else 0, leftAdjust)
  }

  lemma AdjustedIs(str: string, leftAdjust: bool, inWidth: nat, outWidth: nat, sourceLen: nat, spaceLen: nat)
    requires sourceLen == if outWidth == 0 || |str| < outWidth then |str| else outWidth
    requires spaceLen == if inWidth > sourceLen then inWidth - sourceLen else 0
    ensures Adjusted(str, leftAdjust, inWidth, outWidth) == Laid(str[..sourceLen], spaceLen, leftAdjust)
  {
    assert sourceLen == |str| ==> str[..sourceLen] == str;
  }

  /** Zeros up to the width. */
  function Padded(digits: string, width: nat): string {
    Fill('0', if width > |digits| then width - |digits| else 0) + digits
  }

  /** The digits, last first, into a small table from its end. */
  method SpellBackwards(hex: bool, n: nat, size: nat) returns (s: string)
    requires |Digits(hex, n)| <= size
    ensures s == Digits(hex, n)
  {
    var tmp := new char[size + 1];
    var p, m := size, n;
    p := p - 1;
    tmp[p] := DigitChar(Rest(hex, m));
    m := Over(hex, m);
    assert tmp[p..size] == [tmp[p]];
    while m != 0
      invariant 0 <= p < size
      invariant m == 0 ==> Digits(hex, n) == tmp[p..size]
      invariant m != 0 ==> Digits(hex, n) == Digits(hex, m) + tmp[p..size]
      decreases m
    {
      ghost var done := tmp[p..size];
      p := p - 1;
      tmp[p] := DigitChar(Rest(hex, m));
      assert tmp[p..size] == [tmp[p]] + done;
      m := Over(hex, m);
    }
    s := tmp[p..size];
  }
}
