/**
 The engine's growable string buffer and its UTF-8 codec.

 A byte is a `char` below 256; masks and shifts of bytes are written as division and remainder.
 */
module Strings {
  import opened Chars
  import opened Wrappers

  lemma Assoc(a: string, b: string, c: string)
    ensures a + b + c == a + (b + c)
  {
  }

  // ---------- UTF-8 ----------

  /** The bytes `xmls_add_utf` appends for one code point; nothing at all from 0x200000 on. */
  function Utf(u: nat): (s: string)
    ensures |s| <= 4
    ensures |s| > 1 ==> u >= 0x80
  {
    if u < 0x80 then [u as char]
    else if u < 0x800 then [(0xC0 + u / 0x40) as char, (0x80 + u % 0x40) as char]
    else if u < 0x10000 then
      [(0xE0 + u / 0x1000) as char, (0x80 + u / 0x40 % 0x40) as char, (0x80 + u % 0x40) as char]
    else if u < 0x200000 then
      [(0xF0 + u / 0x40000) as char, (0x80 + u / 0x1000 % 0x40) as char,
       (0x80 + u / 0x40 % 0x40) as char, (0x80 + u % 0x40) as char]
    else []
  }

  predicate InRange(s: string, i: nat, low: nat, high: nat)
    requires i < |s|
  {
    low <= s[i] as nat <= high
  }

  predicate IsTail(s: string, i: nat)
    requires i < |s|
  {
    InRange(s, i, 0x80, 0xBF)
  }

  /** One character in the syntax of section 4 of RFC 3629. */
  predicate IsUtf8Char(s: string) {
    || (|s| == 1 && InRange(s, 0, 0, 0x7F))
    || (|s| == 2 && InRange(s, 0, 0xC2, 0xDF) && IsTail(s, 1))
    || (|s| == 3 && IsTail(s, 2) &&
        (|| (InRange(s, 0, 0xE0, 0xE0) && InRange(s, 1, 0xA0, 0xBF))
         || ((InRange(s, 0, 0xE1, 0xEC) || InRange(s, 0, 0xEE, 0xEF)) && IsTail(s, 1))
         || (InRange(s, 0, 0xED, 0xED) && InRange(s, 1, 0x80, 0x9F))))
    || (|s| == 4 && IsTail(s, 2) && IsTail(s, 3) &&
        (|| (InRange(s, 0, 0xF0, 0xF0) && InRange(s, 1, 0x90, 0xBF))
         || (InRange(s, 0, 0xF1, 0xF3) && IsTail(s, 1))
         || (InRange(s, 0, 0xF4, 0xF4) && InRange(s, 1, 0x80, 0x8F))))
  }

  /** The encoder writes a character of RFC 3629 exactly for its code points: no surrogates, none above 0x10FFFF. */
  lemma Utf8CharIff(u: nat)
    ensures IsUtf8Char(Utf(u)) <==> u <= 0x10FFFF && !(0xD800 <= u <= 0xDFFF)
  {
    if 0x800 <= u < 0x10000 {
      ThreeBytes(u);
    } else if 0x10000 <= u < 0x200000 {
      FourBytes(u);
    }
  }

  lemma ThreeBytes(u: nat)
    requires 0x800 <= u < 0x10000
    ensures IsUtf8Char(Utf(u)) <==> !(0xD800 <= u <= 0xDFFF)
  {
    var a, b := u / 0x1000, u / 0x40 % 0x40;
    assert 0x1000 * a + 0x40 * b <= u < 0x1000 * a + 0x40 * b + 0x40;
  }

  lemma FourBytes(u: nat)
    requires 0x10000 <= u < 0x200000
    ensures IsUtf8Char(Utf(u)) <==> u <= 0x10FFFF
  {
    var a, b := u / 0x40000, u / 0x1000 % 0x40;
    assert 0x40000 * a + 0x1000 * b <= u < 0x40000 * a + 0x1000 * b + 0x1000;
  }

  /** No encoding begins another, so a text can be cut into characters in one way only. */
  lemma PrefixFree(u: nat, v: nat)
    requires u < 0x200000 && v < 0x200000 && Utf(u) <= Utf(v)
    ensures u == v
  {
    assert Utf(v)[0] == Utf(u)[0];
    LengthOf(u);
    LengthOf(v);
    assert Utf(u) == Utf(v);
    SameBytes(u, v);
  }

  /** The first byte tells the length. */
  lemma LengthOf(u: nat)
    requires u < 0x200000
    ensures var c := Utf(u)[0] as nat;
      |Utf(u)| == if c < 0x80 then 1 else if c < 0xE0 then 2 else if c < 0xF0 then 3 else 4
  {
  }

  /** The code point an encoding stands for. */
  function ValueOf(s: string): int {
    if |s| == 1 then s[0] as int
    else if |s| == 2 then (s[0] as int - 0xC0) * 0x40 + Payload(s[1])
    else if |s| == 3 then (s[0] as int - 0xE0) * 0x1000 + Payload(s[1]) * 0x40 + Payload(s[2])
    else if |s| == 4 then (s[0] as int - 0xF0) * 0x40000 + Payload(s[1]) * 0x1000 + Payload(s[2]) * 0x40 + Payload(s[3])
    else 0
  }

  function Payload(c: char): int {
    c as int - 0x80
  }

  lemma ValueOfUtf(u: nat)
    requires u < 0x200000
    ensures ValueOf(Utf(u)) == u
  {
    Cut(u, u / 0x40);
    Cut(u / 0x40, u / 0x1000);
    Cut(u / 0x1000, u / 0x40000);
  }

  lemma Cut(u: nat, v: nat)
    requires v == u / 0x40
    ensures u == v * 0x40 + u % 0x40
  {
  }

  lemma SameBytes(u: nat, v: nat)
    requires u < 0x200000 && v < 0x200000 && Utf(u) == Utf(v)
    ensures u == v
  {
    ValueOfUtf(u);
    ValueOfUtf(v);
  }

  function Encode(us: seq<nat>): string {
    if us == [] then [] else Utf(us[0]) + Encode(us[1..])
  }

  /** The value of a 16-bit signed integer that got the low bits of `u`. */
  function Short(u: nat): (v: int)
    ensures -0x8000 <= v < 0x8000
    ensures u < 0x8000 ==> v == u
  {
    var w := u % 0x10000;
    if w < 0x8000 then w else w - 0x10000
  }

  /**
   `utf2ws`: the 16-bit units a C string decodes to, or `None` when a truncated sequence at the
   end makes the loop run past the terminator.
   */
  function Units(s: string): Option<seq<int>>
    decreases |s|
  {
    if s == [] || s[0] == '\0' then Some([])
    else
      match FirstUnit(s)
      case None => None
      case Some((u, n)) => Prepend(u, Units(s[n..]))
  }

  /** The unit at the front, and how many bytes it takes; none when the bytes end too early. */
  function FirstUnit(s: string): (r: Option<(int, nat)>)
    requires s != []
    ensures r.Some? ==> 1 <= r.value.1 <= |s|
  {
    var c := s[0] as int;
    if Bits(c, 0x20, 6) then
      if |s| < 2 then None else Some((Short(c % 0x20 * 0x40 + s[1] as int % 0x40), 2))
    else if Bits(c, 0x10, 14) then
      if |s| < 3 then None else Some((Short(c % 0x10 * 0x1000 + s[1] as int % 0x40 * 0x40 + s[2] as int % 0x40), 3))
    else Some((if c % 0x100 >= 0x80 then 0 else Short(c), 1))
  }

  /** The leading bits of the byte `c`, down to the bit worth `unit`, are `value`. */
  predicate Bits(c: int, unit: int, value: int)
    requires unit > 0
  {
    c % 0x100 / unit == value
  }

  function Prepend(u: int, rest: Option<seq<int>>): Option<seq<int>> {
    match rest
    case None => None
    case Some(us) => Some([u] + us)
  }

  lemma {:induction false} UnitsAreShort(s: string)
    ensures Units(s).Some? ==> forall i | 0 <= i < |Units(s).value| :: -0x8000 <= Units(s).value[i] < 0x8000
    decreases |s|
  {
    if s != [] && s[0] != '\0' {
      UnitsAreShort(s[1..]);
      if |s| >= 2 { UnitsAreShort(s[2..]); }
      if |s| >= 3 { UnitsAreShort(s[3..]); }
    }
  }

  lemma UnitsOfTwo(u: nat, rest: string)
    requires 0x80 <= u < 0x800
    ensures Units(Utf(u) + rest) == Prepend(u, Units(rest))
  {
    var s := Utf(u) + rest;
    assert s[0] as int == 0xC0 + u / 0x40 && s[1] as int == 0x80 + u % 0x40;
    assert Bits(s[0] as int, 0x20, 6);
    assert s[2..] == rest;
  }

  lemma UnitsOfThree(u: nat, rest: string)
    requires 0x800 <= u < 0x8000
    ensures Units(Utf(u) + rest) == Prepend(u, Units(rest))
  {
    var s := Utf(u) + rest;
    assert s[0] as int == 0xE0 + u / 0x1000 && s[1] as int == 0x80 + u / 0x40 % 0x40;
    assert s[2] as int == 0x80 + u % 0x40;
    FirstOfThree(u, s);
    assert s[3..] == rest;
  }

  lemma FirstOfThree(u: nat, s: string)
    requires 0x800 <= u < 0x8000 && |s| >= 3 && s[0] as int == 0xE0 + u / 0x1000
    requires s[1] as int == 0x80 + u / 0x40 % 0x40 && s[2] as int == 0x80 + u % 0x40
    ensures FirstUnit(s) == Some((u, 3))
  {
    var a, b := u / 0x1000, u / 0x40 % 0x40;
    assert Bits(s[0] as int, 0x10, 14) && !Bits(s[0] as int, 0x20, 6);
    assert u / 0x40 == a * 0x40 + b;
  }

  /** Decoding one encoded code point of the range the decoder can represent. */
  lemma UnitsOfUtf(u: nat, rest: string)
    requires 1 <= u < 0x8000
    ensures Units(Utf(u) + rest) == Prepend(u, Units(rest))
  {
    if u < 0x80 {
      assert (Utf(u) + rest)[0] as int == u && (Utf(u) + rest)[1..] == rest;
    } else if u < 0x800 {
      UnitsOfTwo(u, rest);
    } else {
      UnitsOfThree(u, rest);
    }
  }

  lemma UnitsOfWide(u: nat, rest: string)
    requires 0x8000 <= u < 0x200000
    ensures Units(Utf(u) + rest).Some? ==> Units(Utf(u) + rest).value != [] && Units(Utf(u) + rest).value[0] != u
  {
    var s := Utf(u) + rest;
    assert s[0] == Utf(u)[0];
    if u >= 0x10000 {
      assert (s[0] as int) >= 0xF0;
    }
  }

  /** The decoder inverts the encoder exactly on sequences of code points 1 to 0x7FFF. */
  lemma {:induction false} RoundTrip(us: seq<nat>)
    ensures Units(Encode(us)) == Some(us) <==> forall i | 0 <= i < |us| :: 1 <= us[i] < 0x8000
  {
    if us != [] {
      var u, rest := us[0], Encode(us[1..]);
      RoundTrip(us[1..]);
      assert us == [u] + us[1..];
      if 1 <= u < 0x8000 {
        UnitsOfUtf(u, rest);
        assert (forall i | 0 <= i < |us| :: 1 <= us[i] < 0x8000) <==>
            (forall i | 0 <= i < |us[1..]| :: 1 <= us[1..][i] < 0x8000) by {
          if forall i | 0 <= i < |us[1..]| :: 1 <= us[1..][i] < 0x8000 {
            forall i | 0 <= i < |us| ensures 1 <= us[i] < 0x8000 {
              if i > 0 { assert us[i] == us[1..][i - 1]; }
            }
          }
        }
      } else if u == 0 {
        assert Encode(us)[0] == '\0';
      } else if u < 0x200000 {
        UnitsOfWide(u, rest);
      } else {
        assert Encode(us) == [] + rest == rest;
        UnitsAreShort(rest);
      }
    }
  }

  /** The body of the loop below: one unit, and the bytes it takes. */
  method NextUnit(s: string, i: nat) returns (r: Option<(int, nat)>)
    requires i < |s|
    ensures r == FirstUnit(s[i..])
  {
    var c := s[i] as int;
    assert s[i..][0] == s[i];
    if Bits(c, 0x20, 6) {
      if i + 1 >= |s| {
        return None;
      }
      assert s[i..][1] == s[i + 1];
      return Some((Short(c % 0x20 * 0x40 + s[i + 1] as int % 0x40), 2));
    } else if Bits(c, 0x10, 14) {
      if i + 2 >= |s| {
        return None;
      }
      assert s[i..][1] == s[i + 1] && s[i..][2] == s[i + 2];
      return Some((Short(c % 0x10 * 0x1000 + s[i + 1] as int % 0x40 * 0x40 + s[i + 2] as int % 0x40), 3));
    }
    var u := 0;
    if c % 0x100 < 0x80 {
      u := Short(c);
    }
    return Some((u, 1));
  }

  /** The decoding loop of `utf2ws`; `None` when it runs past the terminator. */
  method Utf2Ws(s: string) returns (ws: Option<seq<int>>)
    ensures ws == Units(s)
  {
    var i, out := 0, [];
    assert s[0..] == s;
    AppendNothing(Units(s));
    while At(s, i) != '\0'
      invariant i <= |s|
      invariant Units(s) == Append(out, Units(s[i..]))
      decreases |s| - i
    {
      var unit := NextUnit(s, i);
      assert s[i..][0] == s[i];
      if unit.None? {
        return None;
      }
      var (u, n) := unit.value;
      assert s[i..][n..] == s[i + n..];
      AppendOne(out, u, Units(s[i + n..]));
      out := out + [u];
      i := i + n;
    }
    ws := Some(out);
    assert s[i..] == [] || s[i..][0] == '\0';
    assert out + [] == out;
  }

  ghost function Append(us: seq<int>, rest: Option<seq<int>>): Option<seq<int>> {
    match rest
    case None => None
    case Some(vs) => Some(us + vs)
  }

  lemma AppendNothing(rest: Option<seq<int>>)
    ensures Append([], rest) == rest
  {
    if rest.Some? {
      assert [] + rest.value == rest.value;
    }
  }

  lemma AppendOne(us: seq<int>, u: int, rest: Option<seq<int>>)
    ensures Append(us, Prepend(u, rest)) == Append(us + [u], rest)
  {
    if rest.Some? {
      assert us + ([u] + rest.value) == us + [u] + rest.value;
    }
  }

  /**
   The growable string buffer.  `capacity` is the size the growth test works with; a buffer made
   for `n` bytes has one byte more than that, and the test on a capacity below two wraps around
   and never asks for growth.
   */
  class XmlString {
    var data: array<char>
    var len: nat
    var capacity: nat
    ghost var text: string

    ghost predicate Valid()
      reads this, data
    {
      && len <= capacity <= data.Length
      && len < data.Length
      && text == data[..len]
      && data[len] == '\0'
    }

    constructor (size: nat)
      ensures Valid() && fresh(data) && data.Length == size + 1
      ensures text == "" && capacity == size
    {
      data := new char[size + 1](_ => '\0');
      len := 0;
      capacity := size;
      text := "";
    }

    constructor FromString(s: string)
      ensures Valid() && fresh(data)
      ensures text == s && capacity == |s|
    {
      data := new char[|s| + 1](i => if 0 <= i < |s| then s[i] else '\0');
      len := |s|;
      capacity := |s|;
      text := s;
    }

    /** A zeroed block of `size` bytes with the first `capacity` bytes of the old one. */
    method Grow(size: nat)
      requires Valid() && capacity <= size && len < size
      modifies this
      ensures Valid() && text == old(text)
      ensures fresh(data) && data.Length == size && capacity == size && len == old(len)
    {
      var bytes := data[..capacity];
      data := new char[size](i => if 0 <= i < |bytes| then bytes[i] else '\0');
      capacity := size;
    }

    /** Room for one more byte and the terminator, or a capacity from which the buffer grows. */
    ghost predicate CanAddChar()
      reads this, data
    {
      2 <= capacity || (len < capacity && len + 1 < data.Length)
    }

    method AddChar(c: char)
      requires Valid() && CanAddChar()
      modifies this, data
      ensures Valid() && text == old(text) + [c]
      ensures data == old(data) || fresh(data)
      ensures old(capacity) <= capacity
    {
      if capacity >= 2 && len >= capacity - 2 {
        Grow(2 * capacity + 1);
      }
      data[len] := c;
      len := len + 1;
      data[len] := '\0';
      text := text + [c];
    }

    method AddStr(d: string)
      requires Valid()
      modifies this, data
      ensures Valid() && text == old(text) + d
      ensures data == old(data) || fresh(data)
      ensures old(capacity) <= capacity && len < capacity
    {
      var l := |d| + 1;
      if len + l >= capacity {
        Grow(2 * capacity + l);
      }
      forall i | 0 <= i < l {
        data[len + i] := if i < |d| then d[i] else '\0';
      }
      len := len + l - 1;
      text := text + d;
    }

    /** Two bytes, one after the other. */
    method AddTwo(c: char, d: char)
      requires Valid() && 2 <= capacity
      modifies this, data
      ensures Valid() && text == old(text) + [c, d]
      ensures data == old(data) || fresh(data)
      ensures old(capacity) <= capacity
    {
      AddChar(c);
      AddChar(d);
    }

    method AddUtf(u: nat)
      requires Valid() && (2 <= capacity || (u < 0x80 && CanAddChar()))
      modifies this, data
      ensures Valid() && text == old(text) + Utf(u)
      ensures data == old(data) || fresh(data)
      ensures old(capacity) <= capacity
    {
      ghost var was := text;
      if u < 0x80 {
        AddChar(u as char);
      } else if u < 0x800 {
        AddTwo((0xC0 + u / 0x40) as char, (0x80 + u % 0x40) as char);
      } else if u < 0x10000 {
        AddChar((0xE0 + u / 0x1000) as char);
        AddTwo((0x80 + u / 0x40 % 0x40) as char, (0x80 + u % 0x40) as char);
        assert text == was + Utf(u);
      } else if u < 0x200000 {
        AddTwo((0xF0 + u / 0x40000) as char, (0x80 + u / 0x1000 % 0x40) as char);
        AddTwo((0x80 + u / 0x40 % 0x40) as char, (0x80 + u % 0x40) as char);
        assert text == was + Utf(u);
      }
    }
  }
}
