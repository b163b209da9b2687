/**
 When a text or attribute value survives being printed and parsed: exactly when it contains no
 ampersand followed by a hash.  The printer leaves that pair alone, and what the parser makes of
 it is always shorter than what stood there.
 */
module XmlReferences {
  import opened Chars
  import opened Wrappers
  import opened Strings
  import opened XmlLocal
  import opened XmlParser
  import opened XmlScan
  import opened XmlTree
  import opened XmlRoundTrip

  /** Characters a numeric reference is made of after its ampersand; none of them is ever escaped. */
  predicate InReference(c: char) {
    c == '#' || c == ';' || c == '+' || c == '-' || IsCSpace(c) || Digit(c, 36).Some?
  }

  lemma {:induction false} DigitsRun(doc: string, p: nat, base: nat, value: nat)
    requires p <= |doc| && base <= 36
    ensures forall k | p <= k < Digits(doc, p, base, value).1 :: InReference(doc[k])
    ensures Digits(doc, p, base, value).1 == p + 1 ==> Digits(doc, p, base, value).0 < value * base + base
    decreases |doc| - p
  {
    if p < |doc| && Digit(doc[p], base).Some? {
      DigitsRun(doc, p + 1, base, value * base + Digit(doc[p], base).value);
    }
  }

  lemma {:induction false} SpacesRun(doc: string, p: nat)
    requires p <= |doc|
    ensures forall k | p <= k < SkipCSpaces(doc, p) :: InReference(doc[k])
    decreases |doc| - p
  {
    if p < |doc| && IsCSpace(doc[p]) {
      SpacesRun(doc, p + 1);
    }
  }

  /** What `strtoul` reads consists of such characters; a value above nine takes more than one. */
  lemma StrToUlRun(doc: string, p: nat, base: nat)
    requires p <= |doc| && (base == 10 || base == 16)
    ensures forall k | p <= k < StrToUl(doc, p, base).1 :: InReference(doc[k])
    ensures base == 10 && StrToUl(doc, p, base).1 <= p + 1 ==> StrToUl(doc, p, base).0 < 10
    ensures StrToUl(doc, p, base).1 == p ==> StrToUl(doc, p, base).0 == 0
  {
    var q := SkipCSpaces(doc, p);
    SpacesRun(doc, p);
    var q1 := if At(doc, q) == '-' || At(doc, q) == '+' then q + 1 else q;
    var q2 := if base == 16 && At(doc, q1) == '0' && (At(doc, q1 + 1) == 'x' || At(doc, q1 + 1) == 'X')
                 && Digit(At(doc, q1 + 2), 16).Some? then q1 + 2 else q1;
    DigitsRun(doc, q2, base, 0);
  }

  /** A numeric reference consists of such characters and is longer than what it stands for. */
  lemma NumericRun(doc: string, p: nat)
    requires p < |doc| && doc[p] == '#'
    ensures forall k | p <= k < Numeric(doc, p).1 :: InReference(doc[k])
    ensures |Utf(Numeric(doc, p).0)| <= Numeric(doc, p).1 - p
  {
    var hex := At(doc, p + 1) == 'x' || At(doc, p + 1) == 'X';
    StrToUlRun(doc, if hex then p + 2 else p + 1, if hex then 16 else 10);
  }

  lemma RawHead(doc: string, p: nat, s: string, value: bool)
    requires s != [] && Stands(doc, p, Escaped(s, value)) && p < |doc| && InReference(doc[p])
    ensures Stands(doc, p + 1, Escaped(s[1..], value)) && |Escaped(s, value)| == 1 + |Escaped(s[1..], value)|
  {
    EscapedSplit(doc, p, s, value);
    StandsAt(doc, p, EscapedHead(s, value), 0);
    assert EscapedHead(s, value) == [s[0]];
  }

  /** Such characters stand in the escaped text exactly as in the text itself. */
  lemma {:induction false} RawRun(doc: string, p: nat, s: string, value: bool, e: nat)
    requires p <= e <= |doc| && Stands(doc, p, Escaped(s, value)) && Ends(At(doc, p + |Escaped(s, value)|))
    requires forall i | p <= i < e :: InReference(doc[i])
    ensures e - p <= |s|
    ensures Stands(doc, e, Escaped(s[e - p..], value)) && |Escaped(s, value)| == e - p + |Escaped(s[e - p..], value)|
    decreases e - p
  {
    if p < e {
      assert InReference(doc[p]);
      assert s != [];
      RawHead(doc, p, s, value);
      RawRun(doc, p + 1, s[1..], value, e);
      assert s[1..][e - (p + 1)..] == s[e - p..];
    } else {
      assert s[0..] == s;
    }
  }

  lemma HashFollows(doc: string, p: nat, s: string, value: bool)
    requires Stands(doc, p, Escaped(s, value)) && s != [] && s[0] == '&' && At(s, 1) == '#'
    ensures p + 1 < |doc| && doc[p] == '&' && doc[p + 1] == '#'
    ensures Stands(doc, p + 1, Escaped(s[1..], value)) && |Escaped(s, value)| == 1 + |Escaped(s[1..], value)|
  {
    EscapedSplit(doc, p, s, value);
    StandsAt(doc, p, EscapedHead(s, value), 0);
    EscapedSplit(doc, p + 1, s[1..], value);
    StandsAt(doc, p + 1, EscapedHead(s[1..], value), 0);
  }

  /** The parser goes past a numeric reference in one turn, and makes something shorter of it. */
  lemma UnitOfReference(doc: string, p: nat) returns (e: nat)
    requires p + 1 < |doc| && doc[p] == '&' && doc[p + 1] == '#'
    ensures p + 1 < e <= |doc| && AllReference(doc, p + 1, e)
    ensures Unit(doc, p).1 == e && |Unit(doc, p).0| < e - p
  {
    e := Numeric(doc, p + 1).1;
    NumericRun(doc, p + 1);
  }

  ghost predicate AllReference(doc: string, p: nat, e: nat)
    requires e <= |doc|
  {
    forall i | p <= i < e :: InReference(doc[i])
  }

  lemma BeyondReference(doc: string, p: nat, s: string, value: bool, e: nat, j: nat)
    requires p + 1 <= e <= |doc| && AllReference(doc, p + 1, e) && s != []
    requires Stands(doc, p + 1, Escaped(s[1..], value)) && j == p + 1 + |Escaped(s[1..], value)| && Ends(At(doc, j))
    ensures e <= j <= |doc| && e - p <= |s|
    ensures Stands(doc, e, Escaped(s[e - p..], value)) && j == e + |Escaped(s[e - p..], value)|
  {
    RawRun(doc, p + 1, s[1..], value, e);
    assert s[1..][e - (p + 1)..] == s[e - p..];
  }

  /** Past a reference at the head of `s`: how far the parser goes, and how little it makes of it. */
  lemma PastReference(doc: string, p: nat, s: string, value: bool, j: nat) returns (e: nat)
    requires Stands(doc, p, Escaped(s, value)) && j == p + |Escaped(s, value)| && Ends(At(doc, j))
    requires s != [] && s[0] == '&' && At(s, 1) == '#'
    ensures p < e <= j <= |doc| && e - p <= |s| && Unit(doc, p).1 == e && |Unit(doc, p).0| < e - p
    ensures Stands(doc, e, Escaped(s[e - p..], value)) && j == e + |Escaped(s[e - p..], value)|
  {
    HashFollows(doc, p, s, value);
    e := UnitOfReference(doc, p);
    BeyondReference(doc, p, s, value, e, j);
  }

  /** Printed and parsed, a text never gets longer, and with a reference in it, it gets shorter. */
  lemma {:induction false} NeverLonger(doc: string, p: nat, s: string, value: bool, j: nat)
    requires Stands(doc, p, Escaped(s, value)) && j == p + |Escaped(s, value)| && Ends(At(doc, j))
    ensures j <= |doc| && |Unescape(doc, p, j)| <= |s|
    ensures !NoReference(s) ==> |Unescape(doc, p, j)| < |s|
    decreases |s|
  {
    if s == [] {
    } else if s[0] == '&' && At(s, 1) == '#' {
      var e := PastReference(doc, p, s, value, j);
      NeverLonger(doc, e, s[e - p..], value, j);
      UnescapeUnit(doc, p, j, Unit(doc, p).0, e);
    } else {
      var e := PastPlain(doc, p, s, value, j);
      NeverLonger(doc, e, s[1..], value, j);
      UnescapeUnit(doc, p, j, [s[0]], e);
    }
  }

  /** A printed text or value is read back unchanged if and only if no reference stands in it. */
  lemma ReadBackExactly(doc: string, p: nat, s: string, value: bool, j: nat)
    requires Stands(doc, p, Escaped(s, value)) && j == p + |Escaped(s, value)| && Ends(At(doc, j))
    ensures j <= |doc| && (Unescape(doc, p, j) == s <==> NoReference(s))
  {
    if NoReference(s) {
      ReadEscaped(doc, p, s, value, j);
    } else {
      NeverLonger(doc, p, s, value, j);
    }
  }

  // ---------- whole trees ----------

  lemma BackIff(s: string, value: bool)
    ensures Back(s, value) == s <==> NoReference(s)
  {
    var x := Escaped(s, value);
    assert Stands(x, 0, x);
    ReadBackExactly(x, 0, s, value, |x|);
  }

  lemma {:induction false} AttributesBackIff(attributes: seq<(string, string)>)
    ensures AttributesBack(attributes) == attributes <==> NoReferences(attributes)
    decreases |attributes|
  {
    if attributes != [] {
      var a, rest := attributes[0], attributes[1..];
      BackIff(a.1, true);
      AttributesBackIff(rest);
      assert attributes == [a] + rest;
      assert AttributesBack(attributes)[1..] == AttributesBack(rest);
    }
  }

  lemma ReverseInjective<T>(s: seq<T>, t: seq<T>)
    ensures Reverse(s) == Reverse(t) <==> s == t
  {
    ReverseTwice(s);
    ReverseTwice(t);
  }

  lemma {:induction false} NodeBackIff(n: Node)
    requires Printable(n)
    ensures NodeBack(n) == Turned(n) <==> IsPlain(n)
    decreases n, 0
  {
    match n
    case Element(_, attributes, children) =>
      AttributesBackIff(attributes);
      ReverseInjective(AttributesBack(attributes), attributes);
      AllBackIff(children);
    case Text(content, _, _) => BackIff(content, false);
    case _ =>
  }

  lemma {:induction false} AllBackIff(ns: seq<Node>)
    requires Siblings(ns)
    ensures AllBack(ns) == TurnedAll(ns) <==> ArePlain(ns)
    decreases ns, 1
  {
    if ns != [] {
      NodeBackIff(ns[0]);
      AllBackIff(ns[1..]);
      assert AllBack(ns)[0] == NodeBack(ns[0]) && AllBack(ns)[1..] == AllBack(ns[1..]);
      assert TurnedAll(ns)[0] == Turned(ns[0]) && TurnedAll(ns)[1..] == TurnedAll(ns[1..]);
    }
  }

  /**
   Printed in XML mode and parsed again, a tree comes back with its attribute lists reversed, and
   otherwise unchanged, if and only if no reference stands in any of its texts and values.
   */
  lemma ParsePrintIff(ns: seq<Node>)
    requires Siblings(ns) && (ns == [] || ns[0].Element?)
    ensures Parse(Print(ModeXml, 0, ns)) == Parsed(Root.(children := TurnedAll(ns))) <==> ArePlain(ns)
  {
    ParseOfPrint(ns);
    AllBackIff(ns);
  }

  /** Serialised in XML mode and parsed again, a plain tree comes back with its attribute lists reversed. */
  lemma ParsePrint(ns: seq<Node>)
    requires Siblings(ns) && ArePlain(ns) && (ns == [] || ns[0].Element?)
    ensures Parse(Print(ModeXml, 0, ns)) == Parsed(Root.(children := TurnedAll(ns)))
  {
    ParsePrintIff(ns);
  }

  /** Two round trips give the tree itself. */
  lemma ParsePrintTwice(ns: seq<Node>)
    requires Siblings(ns) && ArePlain(ns) && (ns == [] || ns[0].Element?)
    ensures var once := Parse(Print(ModeXml, 0, ns));
            once.Parsed? && Parse(Print(ModeXml, 0, once.ret.children)) == Parsed(Root.(children := ns))
  {
    ParsePrint(ns);
    TurnedSiblings(ns);
    TurnedArePlain(ns);
    ParsePrint(TurnedAll(ns));
    TurnedTwice(ns);
  }

  /** Four characters that come back as one, a tab. */
  lemma ReferenceIsLost()
    ensures EscapeText("&#9;") == "&#9;" && Unescape("&#9;", 0, 4) == "\t"
  {
    var doc := "&#9;";
    assert Digits(doc, 2, 10, 0) == (9, 3);
    assert StrToUl(doc, 2, 10) == (9, 3);
    assert Unit(doc, 0) == ("\t", 4);
    assert EscapeText(doc[3..]) == ";";
    assert EscapeText(doc[2..]) == "9;";
    assert EscapeText(doc[1..]) == "#9;";
  }
}
