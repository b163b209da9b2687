/**
 What parsing makes of what the printer wrote, in XML mode: the tree with the attribute list of every
 element reversed; doing it twice gives the tree itself.
 */
module XmlRoundTrip {
  import opened Chars
  import opened Wrappers
  import opened Strings
  import opened XmlLocal
  import opened XmlScan
  import opened XmlTree
  import opened XmlParser

  // ---------- which trees ----------

  /** No "&#": the printer leaves that ampersand alone and the parser takes it for a reference. */
  predicate NoReference(s: string) {
    s == [] || (!(s[0] == '&' && At(s, 1) == '#') && NoReference(s[1..]))
  }

  predicate AllName(s: string) {
    forall i | 0 <= i < |s| :: CanName(s[i])
  }

  predicate GoodAttributes(attributes: seq<(string, string)>) {
    attributes == [] ||
    (AllName(attributes[0].0) && GoodAttributes(attributes[1..]))
  }

  /** Texts and values may hold any character here, even a NUL, which no C string can. */
  predicate Printable(n: Node)
    decreases n, 1
  {
    match n
    case Element(name, attributes, children) =>
      name != [] && AllName(name) && GoodAttributes(attributes) && Siblings(children)
    case Text(content, noEscape, cdata) => content != [] && !noEscape && !cdata
    case _ => false
  }

  /** Elements and text, no two texts in a row. */
  predicate Siblings(ns: seq<Node>)
    decreases ns, 0
  {
    ns == [] ||
    (&& Printable(ns[0])
     && !(ns[0].Text? && |ns| > 1 && ns[1].Text?)
     && Siblings(ns[1..]))
  }

  /** No reference stands in a value of the list. */
  predicate NoReferences(attributes: seq<(string, string)>) {
    attributes == [] || (NoReference(attributes[0].1) && NoReferences(attributes[1..]))
  }

  /** No reference stands in any text or value of the node. */
  predicate IsPlain(n: Node)
    decreases n, 1
  {
    match n
    case Element(_, attributes, children) => NoReferences(attributes) && ArePlain(children)
    case Text(content, _, _) => NoReference(content)
    case _ => true
  }

  predicate ArePlain(ns: seq<Node>)
    decreases ns, 0
  {
    ns == [] || (IsPlain(ns[0]) && ArePlain(ns[1..]))
  }

  // ---------- what comes back ----------

  function Escaped(s: string, value: bool): string {
    if value then EscapeValue(s) else EscapeText(s)
  }

  /** What the parser makes of a text or a value after it has been printed. */
  function Back(s: string, value: bool): string {
    Unescape(Escaped(s, value), 0, |Escaped(s, value)|)
  }

  function AttributesBack(attributes: seq<(string, string)>): seq<(string, string)> {
    if attributes == [] then []
    else [(attributes[0].0, Back(attributes[0].1, true))] + AttributesBack(attributes[1..])
  }

  /** What comes back of a node: its attribute list reversed, its texts and values read again. */
  function NodeBack(n: Node): Node {
    match n
    case Element(name, attributes, children) => Element(name, Reverse(AttributesBack(attributes)), AllBack(children))
    case Text(content, noEscape, cdata) => Text(Back(content, false), noEscape, cdata)
    case _ => n
  }

  function AllBack(ns: seq<Node>): seq<Node> {
    if ns == [] then [] else [NodeBack(ns[0])] + AllBack(ns[1..])
  }

  function Reverse<T>(s: seq<T>): seq<T> {
    if s == [] then [] else Reverse(s[1..]) + [s[0]]
  }

  function Turned(n: Node): Node {
    match n
    case Element(name, attributes, children) => Element(name, Reverse(attributes), TurnedAll(children))
    case _ => n
  }

  function TurnedAll(ns: seq<Node>): seq<Node> {
    if ns == [] then [] else [Turned(ns[0])] + TurnedAll(ns[1..])
  }

  // ---------- texts standing in the document ----------

  lemma StandsSplit(doc: string, p: nat, a: string, b: string)
    ensures Stands(doc, p, a + b) <==> Stands(doc, p, a) && Stands(doc, p + |a|, b)
  {
    if Stands(doc, p, a + b) {
      assert doc[p..p + |a|] == (a + b)[..|a|] == a;
      assert doc[p + |a|..p + |a| + |b|] == (a + b)[|a|..] == b;
    }
    if Stands(doc, p, a) && Stands(doc, p + |a|, b) {
      assert doc[p..p + |a + b|] == a + b;
    }
  }

  lemma StandsAt(doc: string, p: nat, a: string, k: nat)
    requires Stands(doc, p, a) && k < |a|
    ensures doc[p + k] == a[k]
  {
    assert doc[p..p + |a|][k] == a[k];
  }

  lemma DecodeNamed(doc: string, p: nat, name: string, c: char)
    requires Stands(doc, p, name)
    requires (name, c) in {("amp;", '&'), ("quot;", '"'), ("lt;", '<'), ("gt;", '>')}
    ensures Decode(doc, p) == (c as nat, p + |name|)
  {
    StandsAt(doc, p, name, 0);
    StandsAt(doc, p, name, 1);
    StandsAt(doc, p, name, 2);
    if |name| > 3 { StandsAt(doc, p, name, 3); }
    if |name| > 4 { StandsAt(doc, p, name, 4); }
  }

  lemma ReadEntity(doc: string, p: nat, name: string, c: char)
    requires Stands(doc, p, "&" + name)
    requires (name, c) in {("amp;", '&'), ("quot;", '"'), ("lt;", '<'), ("gt;", '>')}
    ensures p < |doc| && Unit(doc, p) == ([c], p + 1 + |name|)
  {
    StandsSplit(doc, p, "&", name);
    StandsAt(doc, p, "&", 0);
    DecodeNamed(doc, p + 1, name, c);
  }

  /** Reading one escaped character. */
  lemma ReadChar(doc: string, p: nat, c: char, next: char, value: bool)
    requires Stands(doc, p, if value then EscapeValueChar(c, next) else EscapeTextChar(c, next))
    requires c == '&' ==> next != '#'
    ensures var x := if value then EscapeValueChar(c, next) else EscapeTextChar(c, next);
            p < |doc| && Unit(doc, p) == ([c], p + |x|)
  {
    var x := if value then EscapeValueChar(c, next) else EscapeTextChar(c, next);
    if IsSpecial(c, value) {
      var name := EntityOf(c, next, value);
      ReadEntity(doc, p, name, c);
    } else {
      StandsAt(doc, p, x, 0);
    }
  }

  predicate IsSpecial(c: char, value: bool) {
    c == '&' || c == '<' || c == '>' || (value && c == '"')
  }

  /** The entity a special character is written as. */
  lemma EntityOf(c: char, next: char, value: bool) returns (name: string)
    requires IsSpecial(c, value) && (c == '&' ==> next != '#')
    ensures (if value then EscapeValueChar(c, next) else EscapeTextChar(c, next)) == "&" + name
    ensures (name, c) in {("amp;", '&'), ("quot;", '"'), ("lt;", '<'), ("gt;", '>')}
  {
    name := if c == '&' then "amp;" else if c == '<' then "lt;" else if c == '>' then "gt;" else "quot;";
    assert "&" + "amp;" == "&amp;" && "&" + "lt;" == "&lt;" && "&" + "gt;" == "&gt;" && "&" + "quot;" == "&quot;";
  }

  lemma UnescapeCons(doc: string, p: nat, j: nat, c: char, q: nat, rest: string)
    requires p < j <= |doc| && p < q <= |doc| && Unit(doc, p) == ([c], q) && Unescape(doc, q, j) == rest
    ensures Unescape(doc, p, j) == [c] + rest
  {
  }

  function EscapedHead(s: string, value: bool): string
    requires s != []
  {
    if value then EscapeValueChar(s[0], At(s, 1)) else EscapeTextChar(s[0], At(s, 1))
  }

  /** Past a character at the head of `s` that does not begin a reference. */
  lemma PastPlain(doc: string, p: nat, s: string, value: bool, j: nat) returns (e: nat)
    requires Stands(doc, p, Escaped(s, value)) && j == p + |Escaped(s, value)|
    requires s != [] && !(s[0] == '&' && At(s, 1) == '#')
    ensures p < e <= j <= |doc| && Unit(doc, p) == ([s[0]], e)
    ensures Stands(doc, e, Escaped(s[1..], value)) && j == e + |Escaped(s[1..], value)|
  {
    EscapedSplit(doc, p, s, value);
    ReadChar(doc, p, s[0], At(s, 1), value);
    e := p + |EscapedHead(s, value)|;
  }

  lemma {:induction false} ReadEscaped(doc: string, p: nat, s: string, value: bool, j: nat)
    requires NoReference(s) && Stands(doc, p, Escaped(s, value)) && j == p + |Escaped(s, value)|
    ensures j <= |doc| && Unescape(doc, p, j) == s
    decreases |s|
  {
    if s != [] {
      var e := PastPlain(doc, p, s, value, j);
      ReadEscaped(doc, e, s[1..], value, j);
      UnescapeCons(doc, p, j, s[0], e, s[1..]);
      assert s == [s[0]] + s[1..];
    }
  }

  lemma EscapedSplit(doc: string, p: nat, s: string, value: bool)
    requires s != [] && Stands(doc, p, Escaped(s, value))
    ensures Stands(doc, p, EscapedHead(s, value)) && Stands(doc, p + |EscapedHead(s, value)|, Escaped(s[1..], value))
    ensures |Escaped(s, value)| == |EscapedHead(s, value)| + |Escaped(s[1..], value)| && EscapedHead(s, value) != []
  {
    assert Escaped(s, value) == EscapedHead(s, value) + Escaped(s[1..], value);
    StandsSplit(doc, p, EscapedHead(s, value), Escaped(s[1..], value));
  }

  lemma {:induction false} EscapedHasNoMarks(s: string, value: bool)
    ensures forall i | 0 <= i < |Escaped(s, value)| :: Escaped(s, value)[i] != '<' && (value ==>
      Escaped(s, value)[i] != '"')
    ensures s != [] ==> Escaped(s, value) != []
    decreases |s|
  {
    if s != [] {
      EscapedHasNoMarks(s[1..], value);
      assert Escaped(s, value) == EscapedHead(s, value) + Escaped(s[1..], value);
      assert forall i | 0 <= i < |EscapedHead(s, value)| :: EscapedHead(s, value)[i] != '<' && (value ==>
          EscapedHead(s, value)[i] != '"');
    }
  }

  // ---------- single turns of the parser ----------

  /** One turn of the loop takes the parser from `s` to `t`. */
  ghost predicate Turns(doc: string, s: State, t: State) {
    Fits(doc, s) && s.p < |doc| && Step(doc, s) == Go(t)
  }

  /** `f` tells the outcome of the loop from any state on; it is left abstract below. */
  ghost predicate Follows(doc: string, f: State -> Outcome) {
    forall s, t {:trigger Turns(doc, s, t)} :: Turns(doc, s, t) ==> f(s) == f(t)
  }

  lemma OneTurn(doc: string, f: State -> Outcome, s: State, t: State)
    requires Follows(doc, f)
    requires Fits(doc, s) && s.p < |doc| && Step(doc, s) == Go(t)
    ensures Fits(doc, t) && f(s) == f(t)
  {
    assert Turns(doc, s, t);
  }

  /** Scanning stops where the first other character stands. */
  lemma NameEndIs(doc: string, p: nat, e: nat)
    requires p <= e <= |doc| && (forall k | p <= k < e :: CanName(doc[k])) && !CanName(At(doc, e))
    ensures NameEnd(doc, p) == e
  {
  }

  lemma NameStands(doc: string, p: nat, name: string)
    requires Stands(doc, p, name) && AllName(name) && !CanName(At(doc, p + |name|))
    ensures NameEnd(doc, p) == p + |name| && doc[p..p + |name|] == name
  {
    forall k | p <= k < p + |name| ensures CanName(doc[k]) {
      StandsAt(doc, p, name, k - p);
    }
    NameEndIs(doc, p, p + |name|);
  }

  lemma NoSpace(doc: string, p: nat)
    requires p <= |doc| && !IsSpace(At(doc, p))
    ensures SkipSpaces(doc, p) == p
  {
  }

  lemma OneSpace(doc: string, p: nat)
    requires p < |doc| && doc[p] == ' ' && !IsSpace(At(doc, p + 1))
    ensures SkipSpaces(doc, p) == p + 1
  {
  }

  lemma FindIs(doc: string, p: nat, e: nat, c: char)
    requires p <= e < |doc| && doc[e] == c && forall k | p <= k < e :: doc[k] != c
    ensures Find(doc, p, c) == Some(e)
  {
  }

  /** From either state that can precede a tag, its opening bracket is consumed. */
  lemma AtBracket(doc: string, f: State -> Outcome, s: State)
    requires Follows(doc, f)
    requires Fits(doc, s) && s.p < |doc| && doc[s.p] == '<' && (s.phase == InText || s.phase == Init)
    ensures Fits(doc, s.(p := s.p + 1, phase := OpenTag))
    ensures f(s) == f(s.(p := s.p + 1, phase := OpenTag))
  {
    var t := s.(phase := Init);
    if s.phase == InText {
      FindIs(doc, s.p, s.p, '<');
      OneTurn(doc, f, s, t);
    }
    OneTurn(doc, f, t, s.(p := s.p + 1, phase := OpenTag));
  }

  /** The turn of one phase is a turn of the loop. */
  lemma PhaseTurn(doc: string, f: State -> Outcome, s: State, t: State)
    requires Follows(doc, f)
    requires Fits(doc, s) && s.p < |doc|
    requires s.phase == InText ==> TextTurn(doc, s) == Go(t)
    requires s.phase == OpenTag ==> OpenTurn(doc, s) == Go(t)
    requires s.phase == CloseTag ==> CloseTurn(doc, s) == Go(t)
    requires s.phase == InsideTag ==> InsideTagTurn(doc, s) == Go(t)
    requires s.phase.AttrValue? ==> AttrValueTurn(doc, s) == Go(t)
    requires s.phase in {InText, OpenTag, CloseTag, InsideTag} || s.phase.AttrValue?
    ensures Fits(doc, t) && f(s) == f(t)
  {
    OneTurn(doc, f, s, t);
  }

  /** A text begins at `p`, ends at `e`, and is read as `content`. */
  ghost predicate TextLies(h: (string, nat, nat) -> string, doc: string, p: nat, content: string, e: nat) {
    && p < e <= |doc| && Find(doc, p, '<') == (if e < |doc| then Some(e) else None)
    && h(doc, p, e) == content
  }

  /** The scanner's function as a value, so that a proof sees no more of it than its name. */
  ghost function Reader(): (h: (string, nat, nat) -> string)
    ensures IsUnescape(h)
  {
    var h := (d: string, i: nat, j: nat) => if i <= |d| && j <= |d| then Unescape(d, i, j) else "";
    assert IsUnescape(h);
    h
  }

  lemma TextScanned(h: (string, nat, nat) -> string, doc: string, p: nat, content: string, e: nat)
    requires IsUnescape(h) && content != [] && Stands(doc, p, EscapeText(content)) && e == p + |EscapeText(content)|
    requires e == |doc| || doc[e] == '<'
    ensures TextLies(h, doc, p, Back(content, false), e)
  {
    TextFound(doc, p, content, e);
    BackLies(h, doc, p, content, false);
  }

  lemma TextFound(doc: string, p: nat, content: string, e: nat)
    requires content != [] && Stands(doc, p, EscapeText(content)) && e == p + |EscapeText(content)|
    requires e == |doc| || doc[e] == '<'
    ensures p < e <= |doc| && Find(doc, p, '<') == if e < |doc| then Some(e) else None
  {
    var x := EscapeText(content);
    EscapedHasNoMarks(content, false);
    assert x == Escaped(content, false);
    forall k | p <= k < e ensures doc[k] != '<' {
      StandsAt(doc, p, x, k - p);
    }
    if e < |doc| {
      FindIs(doc, p, e, '<');
    }
  }

  /** Wherever a text or value stands, the same is read. */
  lemma BackLies(h: (string, nat, nat) -> string, doc: string, p: nat, s: string, value: bool)
    requires IsUnescape(h) && Stands(doc, p, Escaped(s, value)) && Ends(At(doc, p + |Escaped(s, value)|))
    ensures p + |Escaped(s, value)| <= |doc|
    ensures h(doc, p, p + |Escaped(s, value)|) == Back(s, value)
  {
    ReadLocal(h, doc, p, Escaped(s, value));
    BackIs(h, s, value);
  }

  lemma BackIs(h: (string, nat, nat) -> string, s: string, value: bool)
    requires IsUnescape(h)
    ensures h(Escaped(s, value), 0, |Escaped(s, value)|) == Back(s, value)
  {
  }

  lemma TextTurnIs(h: (string, nat, nat) -> string, doc: string, s: State, content: string, e: nat)
    requires IsUnescape(h) && Fits(doc, s) && TextLies(h, doc, s.p, content, e)
    ensures TextTurn(doc, s) == Go(State(e, Init, Adopt(s.open, Text(content, false, false)), s.tag))
  {
  }

  /** A text node: everything up to the next bracket or the end. */
  lemma TextRead(doc: string, f: State -> Outcome, s: State, content: string, e: nat)
    requires Follows(doc, f)
    requires Fits(doc, s) && s.phase == InText && content != []
    requires Stands(doc, s.p, EscapeText(content)) && e == s.p + |EscapeText(content)|
    requires e == |doc| || doc[e] == '<'
    ensures var t := State(e, Init, Adopt(s.open, Text(Back(content, false), false, false)), s.tag);
            Fits(doc, t) && f(s) == f(t)
  {
    var h := Reader();
    TextScanned(h, doc, s.p, content, e);
    TextTurnIs(h, doc, s, Back(content, false), e);
    PhaseTurn(doc, f, s, State(e, Init, Adopt(s.open, Text(Back(content, false), false, false)), s.tag));
  }

  lemma OpenTurnIs(doc: string, s: State, name: string)
    requires Fits(doc, s) && name != [] && AllName(name) && Stands(doc, s.p, name)
    requires At(doc, s.p + |name|) in {' ', '/', '>'}
    ensures s.p < |doc|
    ensures OpenTurn(doc, s) == Go(State(SkipSpaces(doc, s.p + |name|), InsideTag, s.open, Some(Open(name, [], []))))
  {
    StandsAt(doc, s.p, name, 0);
    assert CanName(doc[s.p]);
    NoSpace(doc, s.p);
    NameStands(doc, s.p, name);
  }

  /** The name of an opening tag; what follows it is a space, a slash or the closing bracket. */
  lemma TagOpened(doc: string, f: State -> Outcome, s: State, name: string)
    requires Follows(doc, f)
    requires Fits(doc, s) && s.phase == OpenTag && name != [] && AllName(name) && Stands(doc, s.p, name)
    requires At(doc, s.p + |name|) in {' ', '/', '>'}
    ensures var t := State(SkipSpaces(doc, s.p + |name|), InsideTag, s.open, Some(Open(name, [], [])));
            Fits(doc, t) && f(s) == f(t)
  {
    OpenTurnIs(doc, s, name);
    PhaseTurn(doc, f, s, State(SkipSpaces(doc, s.p + |name|), InsideTag, s.open, Some(Open(name, [], []))));
  }

  // ---------- attributes ----------

  /** The name of an attribute and its equals sign. */
  lemma NameTurnIs(doc: string, s: State, name: string)
    requires Fits(doc, s) && s.tag.Some? && AllName(name) && Stands(doc, s.p, name + "=\"")
    ensures s.p < |doc|
    ensures InsideTagTurn(doc, s) ==
            Go(State(s.p + |name| + 1, AttrValue(s.p + |name|), s.open,
                     Some(s.tag.value.(attributes := [(name, "")] + s.tag.value.attributes))))
  {
    NameBefore(doc, s.p, name);
    NoSpace(doc, s.p);
    NameStands(doc, s.p, name);
    NoSpace(doc, s.p + |name|);
    NoSpace(doc, s.p + |name| + 1);
  }

  lemma NameBefore(doc: string, p: nat, name: string)
    requires AllName(name) && Stands(doc, p, name + "=\"")
    ensures Stands(doc, p, name) && At(doc, p + |name|) == '=' && At(doc, p + |name| + 1) == '"'
      && p + |name| + 1 < |doc|
    ensures doc[p] == '=' || CanName(doc[p])
  {
    StandsSplit(doc, p, name, "=\"");
    StandsAt(doc, p + |name|, "=\"", 0);
    StandsAt(doc, p + |name|, "=\"", 1);
    if name != [] {
      StandsAt(doc, p, name, 0);
      assert CanName(name[0]);
    }
  }

  ghost predicate QuotedAt(doc: string, p: nat, value: string, e: nat) {
    Stands(doc, p, "\"" + EscapeValue(value) + "\"") && e == p + 2 + |EscapeValue(value)|
  }

  /** A quoted value: where it ends and what it is. */
  lemma ValueScanned(h: (string, nat, nat) -> string, doc: string, p: nat, value: string, e: nat)
    requires IsUnescape(h) && QuotedAt(doc, p, value, e)
    ensures ValueLies(h, doc, p, Back(value, true), e)
  {
    ValueFound(doc, p, value, e);
    BackLies(h, doc, p + 1, value, true);
  }

  lemma ValueFound(doc: string, p: nat, value: string, e: nat)
    requires QuotedAt(doc, p, value, e)
    ensures p + 1 < e <= |doc| && doc[p] == doc[e - 1] == '"' && Find(doc, p + 1, '"') == Some(e - 1)
    ensures Stands(doc, p + 1, EscapeValue(value)) && e == p + 2 + |EscapeValue(value)|
  {
    var x, c := EscapeValue(value), e - 1;
    StandsSplit(doc, p, "\"" + x, "\"");
    StandsSplit(doc, p, "\"", x);
    StandsAt(doc, p, "\"", 0);
    StandsAt(doc, c, "\"", 0);
    EscapedHasNoMarks(value, true);
    assert x == Escaped(value, true);
    forall k | p + 1 <= k < c ensures doc[k] != '"' {
      StandsAt(doc, p + 1, x, k - (p + 1));
    }
    FindIs(doc, p + 1, c, '"');
  }

  /** Quotes stand at `p` and just before `e`, and what lies between is read as the value. */
  ghost predicate ValueLies(h: (string, nat, nat) -> string, doc: string, p: nat, value: string, e: nat) {
    && p + 1 < e <= |doc| && doc[p] == '"'
    && Find(doc, p + 1, '"') == Some(e - 1) && h(doc, p + 1, e - 1) == value
  }

  lemma AttributeParts(a: (string, string))
    ensures PrintAttribute(a) == " " + (a.0 + "=\"") + (EscapeValue(a.1) + "\"")
    ensures PrintAttribute(a) == " " + (a.0 + "=") + ("\"" + EscapeValue(a.1) + "\"")
  {
  }

  lemma AttributeStands(doc: string, p: nat, a: (string, string))
    requires Stands(doc, p, PrintAttribute(a))
    ensures Stands(doc, p, " ") && Stands(doc, p + 1, a.0 + "=\"")
    ensures Stands(doc, p + 1 + |a.0| + 1, "\"" + EscapeValue(a.1) + "\"")
    ensures |PrintAttribute(a)| == |a.0| + |EscapeValue(a.1)| + 4
  {
    AttributeParts(a);
    var name, quoted := a.0 + "=\"", "\"" + EscapeValue(a.1) + "\"";
    StandsSplit(doc, p, " " + name, EscapeValue(a.1) + "\"");
    StandsSplit(doc, p, " ", name);
    StandsSplit(doc, p, " " + (a.0 + "="), quoted);
  }

  /** The state inside a tag whose attributes so far are `attributes`. */
  function InTag(p: nat, open: seq<Open>, name: string, attributes: seq<(string, string)>): State {
    State(p, InsideTag, open, Some(Open(name, attributes, [])))
  }

  lemma UpdateHead<T>(x: T, y: T, rest: seq<T>)
    ensures ([x] + rest)[0 := y] == [y] + rest
  {
  }

  lemma ReverseOnto<T>(s: seq<T>, acc: seq<T>)
    requires s != []
    ensures Reverse(s) + acc == Reverse(s[1..]) + ([s[0]] + acc)
  {
  }

  lemma NameRead(doc: string, f: State -> Outcome, p: nat, open: seq<Open>, tag: string,
      acc: seq<(string, string)>, name: string) returns (t: State)
    requires Follows(doc, f)
    requires Fits(doc, InTag(p, open, tag, acc)) && AllName(name) && Stands(doc, p, name + "=\"")
    ensures t == State(p + |name| + 1, AttrValue(p + |name|), open, Some(Open(tag, [(name, "")] + acc, [])))
    ensures Fits(doc, t) && f(InTag(p, open, tag, acc)) == f(t)
  {
    NameTurnIs(doc, InTag(p, open, tag, acc), name);
    t := State(p + |name| + 1, AttrValue(p + |name|), open, Some(Open(tag, [(name, "")] + acc, [])));
    PhaseTurn(doc, f, InTag(p, open, tag, acc), t);
  }

  /** A quoted value, back to the state inside the tag. */
  lemma ValueTurnIs(doc: string, s: State, tag: string, name: string, acc: seq<(string, string)>, value: string, e: nat)
    requires Fits(doc, s) && s.phase.AttrValue? && s.tag == Some(Open(tag, [(name, "")] + acc, []))
    requires QuotedAt(doc, s.p, value, e)
    ensures s.p < e <= |doc|
    ensures AttrValueTurn(doc, s) == Go(InTag(SkipSpaces(doc, e), s.open, tag, [(name, Back(value, true))] + acc))
  {
    var h := Reader();
    ValueScanned(h, doc, s.p, value, e);
    ValueSet(h, doc, s, tag, name, acc, Back(value, true), e);
  }

  lemma ValueSet(h: (string, nat, nat) -> string, doc: string, s: State, tag: string, name: string,
      acc: seq<(string, string)>, value: string, e: nat)
    requires IsUnescape(h) && Fits(doc, s) && s.p < |doc| && s.phase.AttrValue? && ValueLies(h, doc, s.p, value, e)
    requires s.tag == Some(Open(tag, [(name, "")] + acc, []))
    ensures AttrValueTurn(doc, s) == Go(InTag(SkipSpaces(doc, e), s.open, tag, [(name, value)] + acc))
  {
    UpdateHead((name, ""), (name, value), acc);
  }

  lemma ValueRead(doc: string, f: State -> Outcome, s: State, tag: string, name: string,
      acc: seq<(string, string)>, value: string, e: nat)
    requires Follows(doc, f)
    requires Fits(doc, s) && s.phase.AttrValue? && s.tag == Some(Open(tag, [(name, "")] + acc, []))
    requires Stands(doc, s.p, "\"" + EscapeValue(value) + "\"") && e == s.p + 2 + |EscapeValue(value)|
    ensures e <= |doc|
    ensures var t := InTag(SkipSpaces(doc, e), s.open, tag, [(name, Back(value, true))] + acc);
            Fits(doc, t) && f(s) == f(t)
  {
    ValueTurnIs(doc, s, tag, name, acc, value, e);
    PhaseTurn(doc, f, s, InTag(SkipSpaces(doc, e), s.open, tag, [(name, Back(value, true))] + acc));
  }

  /** One attribute, from its name to whatever follows its closing quote. */
  lemma AttributeRead(doc: string, f: State -> Outcome, p: nat, open: seq<Open>, tag: string,
      acc: seq<(string, string)>, a: (string, string), e: nat)
    requires Follows(doc, f)
    requires Fits(doc, InTag(p, open, tag, acc)) && AllName(a.0)
    requires p > 0 && Stands(doc, p - 1, PrintAttribute(a)) && e == p - 1 + |PrintAttribute(a)|
    ensures e <= |doc|
    ensures var t := InTag(SkipSpaces(doc, e), open, tag, [(a.0, Back(a.1, true))] + acc);
            Fits(doc, t) && f(InTag(p, open, tag, acc)) == f(t)
  {
    AttributeStands(doc, p - 1, a);
    var s1 := NameRead(doc, f, p, open, tag, acc, a.0);
    ValueRead(doc, f, s1, tag, a.0, acc, a.1, e);
  }

  /** All attributes of a tag, up to its slash or closing bracket. */
  lemma {:induction false} AttributesRead(doc: string, f: State -> Outcome, at: nat, open: seq<Open>, tag: string,
                                          acc: seq<(string, string)>, attributes: seq<(string, string)>, e: nat)
    requires Follows(doc, f)
    requires at <= |doc| && open != [] && GoodAttributes(attributes)
    requires Stands(doc, at, PrintAttributes(attributes)) && e == at + |PrintAttributes(attributes)|
    requires At(doc, e) in {'/', '>'}
    ensures f(InTag(SkipSpaces(doc, at), open, tag, acc))
      == f(InTag(e, open, tag, Reverse(AttributesBack(attributes)) + acc))
    decreases |attributes|
  {
    if attributes == [] {
      NoSpace(doc, at);
      assert Reverse(AttributesBack(attributes)) + acc == acc;
    } else {
      var a, rest := attributes[0], attributes[1..];
      StandsSplit(doc, at, PrintAttribute(a), PrintAttributes(rest));
      SpaceThenName(doc, at, a);
      var next := at + |PrintAttribute(a)|;
      AttributeRead(doc, f, at + 1, open, tag, acc, a, next);
      AttributesRead(doc, f, next, open, tag, [(a.0, Back(a.1, true))] + acc, rest, e);
      var all := AttributesBack(attributes);
      assert all[0] == (a.0, Back(a.1, true)) && all[1..] == AttributesBack(rest);
      ReverseOnto(all, acc);
    }
  }

  lemma SpaceThenName(doc: string, at: nat, a: (string, string))
    requires Stands(doc, at, PrintAttribute(a)) && AllName(a.0)
    ensures SkipSpaces(doc, at) == at + 1
  {
    AttributeStands(doc, at, a);
    StandsAt(doc, at, " ", 0);
    StandsAt(doc, at + 1, a.0 + "=\"", 0);
    if a.0 != [] {
      assert CanName(a.0[0]);
    }
    OneSpace(doc, at);
  }

  // ---------- closing tags ----------

  lemma CloseTurnIs(doc: string, s: State)
    requires Fits(doc, s) && |s.open| > 1 && s.open[0].name != [] && AllName(s.open[0].name)
    requires Stands(doc, s.p, s.open[0].name + ">")
    ensures s.p < |doc|
    ensures CloseTurn(doc, s) ==
            Go(s.(p := s.p + |s.open[0].name| + 1, phase := InText, open := Adopt(s.open[1..], Closed(s.open[0]))))
  {
    var name := s.open[0].name;
    StandsSplit(doc, s.p, name, ">");
    StandsAt(doc, s.p, name, 0);
    StandsAt(doc, s.p + |name|, ">", 0);
    assert CanName(name[0]);
    NoSpace(doc, s.p);
    NameStands(doc, s.p, name);
    FindIs(doc, s.p + |name|, s.p + |name|, '>');
  }

  /** A whole closing tag. */
  lemma Closing(doc: string, f: State -> Outcome, s: State)
    requires Follows(doc, f)
    requires Fits(doc, s) && (s.phase == InText || s.phase == Init)
    requires |s.open| > 1 && s.open[0].name != [] && AllName(s.open[0].name)
    requires Stands(doc, s.p, "</" + s.open[0].name + ">")
    ensures var t := State(s.p + |s.open[0].name| + 3, InText, Adopt(s.open[1..], Closed(s.open[0])), s.tag);
            Fits(doc, t) && f(s) == f(t)
  {
    var name := s.open[0].name;
    assert "</" + name + ">" == "</" + (name + ">");
    StandsSplit(doc, s.p, "</", name + ">");
    StandsAt(doc, s.p, "</", 0);
    StandsAt(doc, s.p, "</", 1);
    AtBracket(doc, f, s);
    var s1 := s.(p := s.p + 1, phase := OpenTag);
    var s2 := s.(p := s.p + 2, phase := CloseTag);
    PhaseTurn(doc, f, s1, s2);
    CloseTurnIs(doc, s2);
    PhaseTurn(doc, f, s2, State(s.p + |name| + 3, InText, Adopt(s.open[1..], Closed(s.open[0])), s.tag));
  }

  // ---------- nodes ----------

  function AdoptAll(open: seq<Open>, ns: seq<Node>): seq<Open>
    requires open != []
  {
    open[0 := open[0].(children := open[0].children + ns)]
  }

  /** `t` is where the parser is after the text of `ns`: everything read has been added to `ret`. */
  ghost predicate ReadAll(doc: string, f: State -> Outcome, s: State, ns: seq<Node>, t: State) {
    && Fits(doc, s) && Fits(doc, t)
    && t.p == s.p + |Print(ModeXml, 0, ns)|
    && (t.phase == InText || t.phase == Init)
    && t.tag == None
    && t.open == AdoptAll(s.open, AllBack(ns))
    && f(s) == f(t)
  }

  /** The text ends, or a tag begins. */
  ghost predicate AtMark(doc: string, e: nat) {
    e == |doc| || (e < |doc| && doc[e] == '<')
  }

  ghost predicate Readable(doc: string, s: State, ns: seq<Node>) {
    ReadableAs(doc, s, ns, Print(ModeXml, 0, ns))
  }

  ghost predicate ReadableAs(doc: string, s: State, ns: seq<Node>, text: string) {
    && Fits(doc, s) && s.tag == None && (s.phase == InText || s.phase == Init)
    && Siblings(ns)
    && (ns != [] && ns[0].Text? ==> s.phase == InText)
    && Stands(doc, s.p, text)
    && AtMark(doc, s.p + |text|)
  }

  lemma AfterText(ns: seq<Node>)
    requires Siblings(ns) && |ns| > 1 && ns[0].Text?
    ensures ns[1].Element?
  {
    assert Siblings(ns[1..]);
    assert Printable(ns[1..][0]);
  }

  lemma PrintStarts(n: Node)
    requires n.Element?
    ensures PrintNode(ModeXml, 0, n) != [] && PrintNode(ModeXml, 0, n)[0] == '<'
  {
  }

  /** Behind a text, if anything, stands a tag. */
  lemma RestBegins(ns: seq<Node>)
    requires Siblings(ns) && |ns| > 1 && ns[0].Text?
    ensures var rest := Print(ModeXml, 0, ns[1..]); rest != [] && rest[0] == '<'
  {
    AfterText(ns);
    PrintStarts(ns[1..][0]);
  }

  /** Where the first node ends. */
  lemma FirstStands(doc: string, s: State, ns: seq<Node>, first: string, rest: string)
    requires ns != [] && ReadableAs(doc, s, ns, first + rest)
    requires if ns[1..] == [] then rest == [] else ns[0].Text? ==> rest != [] && rest[0] == '<'
    ensures Stands(doc, s.p, first) && Printable(ns[0]) && (ns[0].Text? ==> AtMark(doc, s.p + |first|))
  {
    StandsSplit(doc, s.p, first, rest);
    if ns[0].Text? && rest != [] {
      StandsAt(doc, s.p + |first|, rest, 0);
    }
  }

  /** `u` is where the parser is after the first of the nodes. */
  ghost predicate FirstDone(doc: string, s: State, ns: seq<Node>, first: string, u: State)
    requires ns != [] && s.open != []
  {
    && u.p == s.p + |first| && u.tag == None && u.open == Adopt(s.open, NodeBack(ns[0]))
    && u.phase == (if ns[0].Text? then Init else InText)
    && Fits(doc, u)
  }

  lemma RestReadable(doc: string, s: State, ns: seq<Node>, first: string, rest: string, u: State)
    requires ns != [] && ReadableAs(doc, s, ns, first + rest) && FirstDone(doc, s, ns, first, u)
    ensures ReadableAs(doc, u, ns[1..], rest)
  {
    StandsSplit(doc, s.p, first, rest);
    if ns[1..] != [] && ns[0].Text? {
      AfterText(ns);
      assert ns[1..][0] == ns[1];
    }
  }

  /** The first node, whichever it is. */
  lemma {:induction false} FirstRead(doc: string, f: State -> Outcome, s: State, ns: seq<Node>) returns (u: State)
    requires Follows(doc, f)
    requires Readable(doc, s, ns) && ns != []
    ensures FirstDone(doc, s, ns, PrintNode(ModeXml, 0, ns[0]), u) && f(s) == f(u)
    decreases ns, 0
  {
    var e := s.p + |PrintNode(ModeXml, 0, ns[0])|;
    if ns[0].Text? && |ns| > 1 {
      RestBegins(ns);
    }
    FirstStands(doc, s, ns, PrintNode(ModeXml, 0, ns[0]), Print(ModeXml, 0, ns[1..]));
    if ns[0].Text? {
      TextPrinted(ns[0]);
      u := State(e, Init, Adopt(s.open, NodeBack(ns[0])), None);
      TextRead(doc, f, s, ns[0].content, e);
    } else {
      assert ns[0].Element?;
      u := ElementRead(doc, f, s, ns[0]);
    }
  }

  lemma TextPrinted(n: Node)
    requires n.Text? && Printable(n)
    ensures PrintNode(ModeXml, 0, n) == EscapeText(n.content) && n == Text(n.content, false, false)
    ensures n.content != []
  {
    var x := EscapeText(n.content);
    assert "" + x + "" == x;
  }

  lemma AdoptNothing(open: seq<Open>)
    requires open != []
    ensures AdoptAll(open, []) == open
  {
    assert open[0].children + [] == open[0].children;
  }

  lemma AdoptStep(open: seq<Open>, ns: seq<Node>)
    requires open != [] && ns != []
    ensures AdoptAll(Adopt(open, NodeBack(ns[0])), AllBack(ns[1..])) == AdoptAll(open, AllBack(ns))
  {
    assert open[0].children + [NodeBack(ns[0])] + AllBack(ns[1..]) == open[0].children + AllBack(ns);
  }

  lemma {:induction false} NodesRead(doc: string, f: State -> Outcome, s: State, ns: seq<Node>) returns (t: State)
    requires Follows(doc, f)
    requires Readable(doc, s, ns)
    ensures ReadAll(doc, f, s, ns, t)
    decreases ns, 1
  {
    if ns == [] {
      t := s;
      AdoptNothing(s.open);
    } else {
      var u := FirstRead(doc, f, s, ns);
      RestReadable(doc, s, ns, PrintNode(ModeXml, 0, ns[0]), Print(ModeXml, 0, ns[1..]), u);
      t := NodesRead(doc, f, u, ns[1..]);
      AdoptStep(s.open, ns);
    }
  }

  /** The parts of an element's text. */
  function Tag(n: Node): string
    requires n.Element?
  {
    "<" + n.name + PrintAttributes(n.attributes)
  }

  function Rest(n: Node): string
    requires n.Element?
  {
    if n.children != [] then ">" + Print(ModeXml, 0, n.children) + "</" + n.name + ">" else "/>"
  }

  lemma ElementText(n: Node)
    requires n.Element?
    ensures PrintNode(ModeXml, 0, n) == Tag(n) + Rest(n)
  {
  }

  /** The opening tag with its attributes. */
  lemma TagRead(doc: string, f: State -> Outcome, s: State, n: Node) returns (t: State)
    requires Follows(doc, f)
    requires Fits(doc, s) && s.tag == None && (s.phase == InText || s.phase == Init)
    requires n.Element? && Printable(n) && Stands(doc, s.p, Tag(n)) && At(doc, s.p + |Tag(n)|) in {'/', '>'}
    ensures t == State(s.p + |Tag(n)|, InsideTag, s.open, Some(Open(n.name, Reverse(AttributesBack(n.attributes)), [])))
    ensures Fits(doc, t) && f(s) == f(t)
  {
    var at := s.p + 1 + |n.name|;
    TagStands(doc, s.p, n);
    AtBracket(doc, f, s);
    TagOpened(doc, f, s.(p := s.p + 1, phase := OpenTag), n.name);
    t := AllAttributesRead(doc, f, at, s.open, n.name, n.attributes, s.p + |Tag(n)|);
  }

  lemma AllAttributesRead(doc: string, f: State -> Outcome, at: nat, open: seq<Open>, tag: string,
      attributes: seq<(string, string)>, e: nat) returns (t: State)
    requires Follows(doc, f)
    requires at <= |doc| && open != [] && GoodAttributes(attributes)
    requires Stands(doc, at, PrintAttributes(attributes)) && e == at + |PrintAttributes(attributes)|
    requires At(doc, e) in {'/', '>'}
    ensures t == State(e, InsideTag, open, Some(Open(tag, Reverse(AttributesBack(attributes)), []))) && Fits(doc, t)
    ensures f(State(SkipSpaces(doc, at), InsideTag, open, Some(Open(tag, [], [])))) == f(t)
  {
    AttributesRead(doc, f, at, open, tag, [], attributes, e);
    var all := Reverse(AttributesBack(attributes));
    assert all + [] == all;
    t := InTag(e, open, tag, all);
  }

  lemma TagStands(doc: string, p: nat, n: Node)
    requires n.Element? && Stands(doc, p, Tag(n)) && At(doc, p + |Tag(n)|) in {'/', '>'}
    ensures doc[p] == '<' && Stands(doc, p + 1, n.name)
    ensures Stands(doc, p + 1 + |n.name|, PrintAttributes(n.attributes))
    ensures |Tag(n)| == 1 + |n.name| + |PrintAttributes(n.attributes)|
    ensures At(doc, p + 1 + |n.name|) in {' ', '/', '>'}
  {
    var at := p + 1 + |n.name|;
    StandsSplit(doc, p, "<" + n.name, PrintAttributes(n.attributes));
    StandsSplit(doc, p, "<", n.name);
    StandsAt(doc, p, "<", 0);
    if n.attributes != [] {
      StandsAt(doc, at, PrintAttributes(n.attributes), 0);
    }
  }

  lemma TagEndTurns(doc: string, s: State)
    requires Fits(doc, s) && s.phase == InsideTag && s.p < |doc|
    ensures doc[s.p] == '>' ==>
              InsideTagTurn(doc, s) == Go(State(s.p + 1, InText, [s.tag.value] + s.open, None))
    ensures doc[s.p] == '/' && At(doc, s.p + 1) == '>' ==>
              InsideTagTurn(doc, s) == Go(State(s.p + 2, InText, Adopt(s.open, Closed(s.tag.value)), None))
  {
  }

  /** A whole element. */
  lemma {:induction false} ElementRead(doc: string, f: State -> Outcome, s: State, n: Node) returns (t: State)
    requires Follows(doc, f)
    requires Fits(doc, s) && s.tag == None && (s.phase == InText || s.phase == Init)
    requires n.Element? && Printable(n) && Stands(doc, s.p, PrintNode(ModeXml, 0, n))
    ensures t == State(s.p + |PrintNode(ModeXml, 0, n)|, InText, Adopt(s.open, NodeBack(n)), None)
    ensures Fits(doc, t) && f(s) == f(t)
    decreases n, 2
  {
    ElementText(n);
    StandsSplit(doc, s.p, Tag(n), Rest(n));
    RestStarts(doc, s.p + |Tag(n)|, n);
    var s1 := TagRead(doc, f, s, n);
    if n.children == [] {
      t := EmptyRead(doc, f, s1, n);
    } else {
      t := FullRead(doc, f, s1, n);
    }
  }

  lemma RestStarts(doc: string, at: nat, n: Node)
    requires n.Element? && Stands(doc, at, Rest(n))
    ensures |Rest(n)| >= 2
    ensures if n.children == [] then Rest(n) == "/>" && At(doc, at) == '/' && At(doc, at + 1) == '>'
      else At(doc, at) == '>'
  {
    StandsAt(doc, at, Rest(n), 0);
    StandsAt(doc, at, Rest(n), 1);
  }

  /** A tag that closes itself. */
  lemma EmptyRead(doc: string, f: State -> Outcome, s: State, n: Node) returns (t: State)
    requires Follows(doc, f)
    requires n.Element? && n.children == [] && Fits(doc, s) && s.phase == InsideTag
    requires s.tag == Some(Open(n.name, Reverse(AttributesBack(n.attributes)), []))
    requires At(doc, s.p) == '/' && At(doc, s.p + 1) == '>'
    ensures t == State(s.p + 2, InText, Adopt(s.open, NodeBack(n)), None)
    ensures Fits(doc, t) && f(s) == f(t)
  {
    TagEndTurns(doc, s);
    t := State(s.p + 2, InText, Adopt(s.open, Closed(s.tag.value)), None);
    PhaseTurn(doc, f, s, t);
  }

  /** A tag with content and its end behind it. */
  lemma {:induction false} FullRead(doc: string, f: State -> Outcome, s: State, n: Node) returns (t: State)
    requires Follows(doc, f)
    requires n.Element? && Printable(n) && n.children != [] && Fits(doc, s) && s.phase == InsideTag
    requires s.tag == Some(Open(n.name, Reverse(AttributesBack(n.attributes)), []))
    requires At(doc, s.p) == '>' && Stands(doc, s.p, Rest(n))
    ensures t == State(s.p + |Rest(n)|, InText, Adopt(s.open, NodeBack(n)), None)
    ensures Fits(doc, t) && f(s) == f(t)
    decreases n, 1
  {
    TagEndTurns(doc, s);
    var s2 := State(s.p + 1, InText, [s.tag.value] + s.open, None);
    PhaseTurn(doc, f, s, s2);
    assert s2.open[1..] == s.open;
    t := ContentRead(doc, f, s2, n);
  }

  /** The children of an element and its closing tag. */
  lemma {:induction false} ContentRead(doc: string, f: State -> Outcome, s: State, n: Node) returns (t: State)
    requires Follows(doc, f)
    requires n.Element? && Printable(n) && n.children != []
    requires Fits(doc, s) && s.phase == InText && s.tag == None && |s.open| > 1
    requires s.open[0] == Open(n.name, Reverse(AttributesBack(n.attributes)), [])
    requires s.p > 0 && Stands(doc, s.p - 1, Rest(n))
    ensures t == State(s.p - 1 + |Rest(n)|, InText, Adopt(s.open[1..], NodeBack(n)), None)
    ensures Fits(doc, t) && f(s) == f(t)
    decreases n, 0
  {
    RestStands(doc, s.p - 1, n);
    var u := NodesRead(doc, f, s, n.children);
    AdoptedAll(s.open, n, u.open);
    Closing(doc, f, u);
    t := State(s.p - 1 + |Rest(n)|, InText, Adopt(s.open[1..], NodeBack(n)), None);
  }

  lemma RestStands(doc: string, p: nat, n: Node)
    requires n.Element? && n.children != [] && Stands(doc, p, Rest(n))
    ensures var inner := Print(ModeXml, 0, n.children);
            && Stands(doc, p + 1, inner)
            && Stands(doc, p + 1 + |inner|, "</" + n.name + ">")
            && doc[p + 1 + |inner|] == '<'
            && |Rest(n)| == |inner| + |n.name| + 4
  {
    var inner, end := Print(ModeXml, 0, n.children), "</" + n.name + ">";
    assert Rest(n) == ">" + (inner + end);
    StandsSplit(doc, p, ">", inner + end);
    StandsSplit(doc, p + 1, inner, end);
    StandsAt(doc, p + 1 + |inner|, end, 0);
  }

  lemma AdoptedAll(open: seq<Open>, n: Node, after: seq<Open>)
    requires n.Element? && |open| > 1 && open[0] == Open(n.name, Reverse(AttributesBack(n.attributes)), [])
    requires after == AdoptAll(open, AllBack(n.children))
    ensures |after| == |open| && after[1..] == open[1..] && Closed(after[0]) == NodeBack(n) && after[0].name == n.name
  {
    assert [] + AllBack(n.children) == AllBack(n.children);
  }

  // ---------- the theorem ----------

  /** What any tree comes back as when it is serialised in XML mode and parsed again. */
  lemma ParseOfPrint(ns: seq<Node>)
    requires Siblings(ns) && (ns == [] || ns[0].Element?)
    ensures Parse(Print(ModeXml, 0, ns)) == Parsed(Root.(children := AllBack(ns)))
  {
    var doc := Print(ModeXml, 0, ns);
    var f := (s: State) => if Fits(doc, s) then ParseFrom(doc, s) else Rejected;
    forall s, t | Turns(doc, s, t) ensures f(s) == f(t) {
      StepProgress(doc, s);
    }
    assert Stands(doc, 0, doc);
    var t := NodesRead(doc, f, Begin(), ns);
    assert t.open == [Root.(children := AllBack(ns))] by {
      assert [] + AllBack(ns) == AllBack(ns);
    }
  }

  lemma {:induction false} ReverseAppend<T>(s: seq<T>, x: T)
    ensures Reverse(s + [x]) == [x] + Reverse(s)
    decreases |s|
  {
    if s == [] {
      assert s + [x] == [x];
    } else {
      assert (s + [x])[1..] == s[1..] + [x];
      ReverseAppend(s[1..], x);
    }
  }

  lemma {:induction false} ReverseTwice<T>(s: seq<T>)
    ensures Reverse(Reverse(s)) == s
    decreases |s|
  {
    if s != [] {
      ReverseTwice(s[1..]);
      ReverseAppend(Reverse(s[1..]), s[0]);
    }
  }

  lemma {:induction false} TurnedTwice(ns: seq<Node>)
    ensures TurnedAll(TurnedAll(ns)) == ns
    decreases ns
  {
    if ns != [] {
      TurnedTwice(ns[1..]);
      match ns[0]
      case Element(_, attributes, children) =>
        ReverseTwice(attributes);
        TurnedTwice(children);
      case _ =>
    }
  }

  lemma {:induction false} ReverseGood(s: seq<(string, string)>, acc: seq<(string, string)>)
    requires GoodAttributes(s) && GoodAttributes(acc)
    ensures GoodAttributes(Reverse(s) + acc)
    decreases |s|
  {
    if s == [] {
      assert Reverse(s) + acc == acc;
    } else {
      var next := [s[0]] + acc;
      assert next[0] == s[0] && next[1..] == acc;
      ReverseGood(s[1..], next);
      ReverseOnto(s, acc);
    }
  }

  lemma {:induction false} TurnedSiblings(ns: seq<Node>)
    requires Siblings(ns)
    ensures Siblings(TurnedAll(ns)) && |TurnedAll(ns)| == |ns|
    ensures ns != [] ==>
      Printable(Turned(ns[0])) && TurnedAll(ns)[0].Text? == ns[0].Text? && TurnedAll(ns)[0].Element? == ns[0].Element?
    decreases ns, 1
  {
    if ns != [] {
      TurnedSiblings(ns[1..]);
      TurnedPrintable(ns[0]);
      assert TurnedAll(ns)[1..] == TurnedAll(ns[1..]);
    }
  }

  lemma {:induction false} TurnedPrintable(n: Node)
    requires Printable(n)
    ensures Printable(Turned(n))
    decreases n, 0
  {
    match n
    case Element(_, attributes, children) =>
      ReverseGood(attributes, []);
      assert Reverse(attributes) + [] == Reverse(attributes);
      TurnedSiblings(children);
    case _ =>
  }

  lemma {:induction false} ReversePlain(s: seq<(string, string)>, acc: seq<(string, string)>)
    requires NoReferences(s) && NoReferences(acc)
    ensures NoReferences(Reverse(s) + acc)
    decreases |s|
  {
    if s == [] {
      assert Reverse(s) + acc == acc;
    } else {
      var next := [s[0]] + acc;
      assert next[0] == s[0] && next[1..] == acc;
      ReversePlain(s[1..], next);
      ReverseOnto(s, acc);
    }
  }

  lemma {:induction false} TurnedArePlain(ns: seq<Node>)
    requires ArePlain(ns)
    ensures ArePlain(TurnedAll(ns))
    decreases ns, 1
  {
    if ns != [] {
      TurnedIsPlain(ns[0]);
      TurnedArePlain(ns[1..]);
      assert TurnedAll(ns)[1..] == TurnedAll(ns[1..]);
    }
  }

  lemma {:induction false} TurnedIsPlain(n: Node)
    requires IsPlain(n)
    ensures IsPlain(Turned(n))
    decreases n, 0
  {
    match n
    case Element(_, attributes, children) =>
      ReversePlain(attributes, []);
      assert Reverse(attributes) + [] == Reverse(attributes);
      TurnedArePlain(children);
    case _ =>
  }
}
