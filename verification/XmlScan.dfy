/**
 The lexical helpers of the XML parser: skipping, names, entities.  All of them work on a C string:
 reading just past the end yields the terminator, reading further is reported.
 */
module XmlScan {
  import opened Chars
  import opened Wrappers
  import opened Strings

  /** `can_name` */
  predicate CanName(c: char) {
    'a' <= c <= 'z' || c == '-' || c == '_' || c == ':' || '0' <= c <= '9' || 'A' <= c <= 'Z'
  }

  function SkipSpaces(doc: string, p: nat): (r: nat)
    requires p <= |doc|
    ensures p <= r <= |doc|
    ensures !IsSpace(At(doc, r)) && forall k | p <= k < r :: IsSpace(doc[k])
    decreases |doc| - p
  {
    if p < |doc| && IsSpace(doc[p]) then SkipSpaces(doc, p + 1) else p
  }

  function NameEnd(doc: string, p: nat): (r: nat)
    requires p <= |doc|
    ensures p <= r <= |doc|
    ensures !CanName(At(doc, r)) && forall k | p <= k < r :: CanName(doc[k])
    decreases |doc| - p
  {
    if p < |doc| && CanName(doc[p]) then NameEnd(doc, p + 1) else p
  }

  /** The next `c` at or after `p`, if there is one before the terminator. */
  function Find(doc: string, p: nat, c: char): (r: Option<nat>)
    ensures r.Some? ==> p <= r.value < |doc| && doc[r.value] == c && forall k | p <= k < r.value :: doc[k] != c
    ensures r.None? ==> forall k | p <= k < |doc| :: doc[k] != c
    decreases |doc| - p
  {
    if p >= |doc| then None
    else if doc[p] == c then Some(p)
    else Find(doc, p + 1, c)
  }

  /** Does `s` stand at `p`? */
  predicate Stands(doc: string, p: nat, s: string) {
    p + |s| <= |doc| && doc[p..p + |s|] == s
  }

  /** The next place at or after `p` where `s` stands. */
  function FindStr(doc: string, p: nat, s: string): (r: Option<nat>)
    ensures r.Some? ==> p <= r.value && Stands(doc, r.value, s)
    decreases |doc| - p
  {
    if p > |doc| then None
    else if Stands(doc, p, s) then Some(p)
    else FindStr(doc, p + 1, s)
  }

  method SkipBlanks(doc: string, start: nat) returns (p: nat)
    requires start <= |doc|
    ensures p == SkipSpaces(doc, start)
  {
    p := start;
    while IsSpace(At(doc, p))
      invariant start <= p <= |doc|
      invariant forall k | start <= k < p :: IsSpace(doc[k])
      decreases |doc| - p
    {
      p := p + 1;
    }
  }

  method ScanName(doc: string, p: nat) returns (c: nat)
    requires p <= |doc|
    ensures c == NameEnd(doc, p)
  {
    c := p;
    while CanName(At(doc, c))
      invariant p <= c <= |doc|
      invariant forall k | p <= k < c :: CanName(doc[k])
      decreases |doc| - c
    {
      c := c + 1;
    }
  }

  /** A scan for `mark` that runs into the terminator finds nothing. */
  method ScanFor(doc: string, p: nat, mark: char) returns (c: Option<nat>)
    requires p <= |doc|
    ensures c == Find(doc, p, mark)
  {
    var q := p;
    while q < |doc| && doc[q] != mark
      invariant p <= q <= |doc|
      invariant forall k | p <= k < q :: doc[k] != mark
    {
      q := q + 1;
    }
    c := if q < |doc| then Some(q) else None;
  }

  method ScanForStr(doc: string, p: nat, mark: string) returns (c: Option<nat>)
    requires p <= |doc|
    ensures c == FindStr(doc, p, mark)
  {
    var q := p;
    while q <= |doc| && !Stands(doc, q, mark)
      invariant p <= q <= |doc| + 1
      invariant FindStr(doc, p, mark) == FindStr(doc, q, mark)
      decreases |doc| + 1 - q
    {
      q := q + 1;
    }
    c := if q <= |doc| then Some(q) else None;
  }

  // ---------- entities ----------

  const ULONG_MAX: nat := 0xFFFF_FFFF_FFFF_FFFF

  predicate IsCSpace(c: char) {
    IsSpace(c) || c as int == 11 || c as int == 12
  }

  function Digit(c: char, base: nat): Option<nat> {
    var d := if '0' <= c <= '9' then c as int - '0' as int
             else if 'a' <= c <= 'z' then c as int - 'a' as int + 10
             else if 'A' <= c <= 'Z' then c as int - 'A' as int + 10
             else 36;
    if d < base then Some(d) else None
  }

  /** The digits from `p` on: their value and the place after them. */
  function Digits(doc: string, p: nat, base: nat, value: nat): (r: (nat, nat))
    requires p <= |doc|
    ensures p <= r.1 <= |doc|
    decreases |doc| - p
  {
    if p < |doc| && Digit(doc[p], base).Some? then
      Digits(doc, p + 1, base, value * base + Digit(doc[p], base).value)
    else (value, p)
  }

  function SkipCSpaces(doc: string, p: nat): (r: nat)
    requires p <= |doc|
    ensures p <= r <= |doc|
    decreases |doc| - p
  {
    if p < |doc| && IsCSpace(doc[p]) then SkipCSpaces(doc, p + 1) else p
  }

  /** `strtoul`: blanks, a sign, for base 16 an optional prefix, then digits; it saturates. */
  function StrToUl(doc: string, p: nat, base: nat): (r: (nat, nat))
    requires p <= |doc|
    ensures p <= r.1 <= |doc|
  {
    var q := SkipCSpaces(doc, p);
    var negative := At(doc, q) == '-';
    var q1 := if negative || At(doc, q) == '+' then q + 1 else q;
    var q2 := if base == 16 && At(doc, q1) == '0' && (At(doc, q1 + 1) == 'x' || At(doc, q1 + 1) == 'X')
                 && Digit(At(doc, q1 + 2), 16).Some? then q1 + 2 else q1;
    var (v, e) := Digits(doc, q2, base, 0);
    if e == q2 then (0, p)
    else (if v > ULONG_MAX then ULONG_MAX else if negative then (ULONG_MAX + 1 - v) % (ULONG_MAX + 1) else v, e)
  }

  /** A numeric reference, from its hash on; without a semicolon it stands for a question mark. */
  function Numeric(doc: string, p: nat): (r: (nat, nat))
    requires p < |doc|
    ensures p < r.1 <= |doc|
  {
    var hex := At(doc, p + 1) == 'x' || At(doc, p + 1) == 'X';
    var (v, e) := StrToUl(doc, if hex then p + 2 else p + 1, if hex then 16 else 10);
    if At(doc, e) == ';' then (v % 0x1_0000_0000, e + 1) else ('?' as nat, e)
  }

  /** `decode_entity`, just after the ampersand: the code point and where to go on. */
  function Decode(doc: string, p: nat): (r: (nat, nat))
    requires p <= |doc|
    ensures p <= r.1 <= |doc|
  {
    if At(doc, p) == '#' then Numeric(doc, p)
    else Named(doc, p)
  }

  /** The five named entities; anything else stands for an ampersand and is not consumed. */
  function Named(doc: string, p: nat): (r: (nat, nat))
    requires p <= |doc|
    ensures p <= r.1 <= |doc|
  {
    var a, b, c, d, e := At(doc, p), At(doc, p + 1), At(doc, p + 2), At(doc, p + 3), At(doc, p + 4);
    if a == 'a' && b == 'm' && c == 'p' && d == ';' then ('&' as nat, p + 4)
    else if a == 'q' && b == 'u' && c == 'o' && d == 't' && e == ';' then ('"' as nat, p + 5)
    else if a == 'l' && b == 't' && c == ';' then ('<' as nat, p + 3)
    else if a == 'g' && b == 't' && c == ';' then ('>' as nat, p + 3)
    else if a == 'a' && b == 'p' && c == 'o' && d == 's' && e == ';' then ('\'' as nat, p + 5)
    else ('&' as nat, p)
  }

  /** One character of a text or an entity: what it stands for, and where to go on. */
  function Unit(doc: string, i: nat): (r: (string, nat))
    requires i < |doc|
    ensures i < r.1 <= |doc|
  {
    if doc[i] == '&' then
      var (u, next) := Decode(doc, i + 1);
      (Utf(u), next)
    else ([doc[i]], i + 1)
  }

  /** What `make_unescaped_string` makes of the characters from `i` up to `j`. */
  function Unescape(doc: string, i: nat, j: nat): string
    requires i <= |doc| && j <= |doc|
    decreases j - i
  {
    if i >= j then [] else Unit(doc, i).0 + Unescape(doc, Unit(doc, i).1, j)
  }

  /** The characters a run of text or an attribute value ends at. */
  predicate Ends(c: char) {
    c == '<' || c == '"' || c == '\'' || c == '`' || c == '\0'
  }

  method AddUnit(buf: XmlString, doc: string, q: nat) returns (next: nat)
    requires q < |doc| && buf.Valid()
    requires 2 <= buf.capacity || (buf.CanAddChar() && Ends(At(doc, q + 1)))
    modifies buf, buf.data
    ensures buf.Valid() && (buf.data == old(buf.data) || fresh(buf.data)) && old(buf.capacity) <= buf.capacity
    ensures buf.text == old(buf.text) + Unit(doc, q).0 && next == Unit(doc, q).1
  {
    var c := doc[q];
    next := q + 1;
    if c == '&' {
      var (u, after) := Decode(doc, next);
      assert Ends(At(doc, q + 1)) ==> u == '&' as nat;
      buf.AddUtf(u);
      next := after;
    } else {
      buf.AddChar(c);
    }
  }

  /** The buffer holds what the characters from `p` up to `q` stand for, and has room to go on. */
  ghost predicate Filling(buf: XmlString, doc: string, p: nat, q: nat, s: nat)
    reads buf, buf.data
    requires p <= |doc| && q <= |doc| && s <= |doc|
  {
    && buf.Valid()
    && (2 <= buf.capacity || q >= s || (s == q + 1 && buf.CanAddChar()))
    && buf.text + Unescape(doc, q, s) == Unescape(doc, p, s)
  }

  method FillOne(buf: XmlString, doc: string, ghost p: nat, q: nat, ghost s: nat) returns (next: nat)
    requires p <= q < s <= |doc| && Ends(At(doc, s)) && Filling(buf, doc, p, q, s)
    modifies buf, buf.data
    ensures q < next <= |doc| && Filling(buf, doc, p, next, s)
    ensures buf.data == old(buf.data) || fresh(buf.data)
  {
    Assoc(buf.text, Unit(doc, q).0, Unescape(doc, Unit(doc, q).1, s));
    next := AddUnit(buf, doc, q);
  }

  method MakeUnescapedString(doc: string, p: nat, s: nat) returns (buf: XmlString)
    requires p <= s <= |doc| && Ends(At(doc, s))
    ensures fresh(buf) && fresh(buf.data) && buf.Valid()
    ensures buf.text == Unescape(doc, p, s)
  {
    buf := new XmlString(s - p);
    var q := p;
    while q < s
      invariant p <= q <= |doc|
      invariant fresh(buf) && fresh(buf.data) && Filling(buf, doc, p, q, s)
      decreases s - q
    {
      q := FillOne(buf, doc, p, q, s);
    }
    assert buf.text + [] == buf.text;
  }
}
