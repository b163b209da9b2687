/**
 What the modes of the printer have in common: HTML and text output are XML output of a tree that is
 rewritten first, and where nothing needs rewriting they agree.
 */
module XmlModes {
  import opened Wrappers
  import opened Strings
  import opened XmlTree

  predicate HasNoEnd(name: string) {
    name == "img" || name == "meta" || name == "hr" || name == "br" || name == "link" || name == "input"
  }

  /** Prints as nothing, but its parent has a child. */
  const NOTHING := Text("", false, false)

  /**
   The tree to print as XML in place of `n` as HTML: the six elements without an end are their start tag, an
   empty element has both tags, and below a script every text stands as it is.
   */
  function Html(verbatim: bool, n: Node): Node
    decreases n, 1
  {
    match n
    case Element(name, attributes, children) =>
      if HasNoEnd(name) then Text("<" + name + PrintAttributes(attributes) + ">", true, false)
      else if children == [] then Element(name, attributes, [NOTHING])
      else Element(name, attributes, HtmlAll(verbatim || name == "script", children))
    case Text(content, noEscape, cdata) => Text(content, noEscape || verbatim, cdata)
    case Placeholder(children) => Placeholder(HtmlAll(verbatim, children))
    case _ => n
  }

  function HtmlAll(verbatim: bool, ns: seq<Node>): (r: seq<Node>)
    ensures |r| == |ns|
    decreases ns, 0
  {
    if ns == [] then [] else [Html(verbatim, ns[0])] + HtmlAll(verbatim, ns[1..])
  }

  /** The same for text output: both tags for an empty element, and no difference else. */
  function Plain(n: Node): Node
    decreases n, 1
  {
    match n
    case Element(name, attributes, children) =>
      Element(name, attributes, if children == [] then [NOTHING] else PlainAll(children))
    case Placeholder(children) => Placeholder(PlainAll(children))
    case _ => n
  }

  function PlainAll(ns: seq<Node>): (r: seq<Node>)
    ensures |r| == |ns|
    decreases ns, 0
  {
    if ns == [] then [] else [Plain(ns[0])] + PlainAll(ns[1..])
  }

  /** Neither one of the six elements nor a script nor an empty element is in the tree. */
  predicate Common(n: Node)
    decreases n, 1
  {
    match n
    case Element(name, _, children) => !HasNoEnd(name) && name != "script" && children != [] && AllCommon(children)
    case Placeholder(children) => AllCommon(children)
    case _ => true
  }

  predicate AllCommon(ns: seq<Node>)
    decreases ns, 0
  {
    ns == [] || (Common(ns[0]) && AllCommon(ns[1..]))
  }

  predicate Filled(n: Node)
    decreases n, 1
  {
    match n
    case Element(_, _, children) => children != [] && AllFilled(children)
    case Placeholder(children) => AllFilled(children)
    case _ => true
  }

  predicate AllFilled(ns: seq<Node>)
    decreases ns, 0
  {
    ns == [] || (Filled(ns[0]) && AllFilled(ns[1..]))
  }

  lemma PrintNothing(mode: OutputMode, raw: nat)
    ensures Print(mode, raw, [NOTHING]) == ""
  {
    assert [NOTHING][1..] == [];
    assert Print(mode, raw, [NOTHING][1..]) == "";
    assert PrintNode(mode, raw, NOTHING) == "" + "" + "";
  }

  lemma {:induction false} HtmlNodeIsXml(raw: nat, n: Node)
    ensures PrintNode(ModeHtml, raw, n) == PrintNode(ModeXml, 0, Html(raw > 0, n))
    decreases n, 1
  {
    match n
    case Element(name, attributes, children) =>
      if HasNoEnd(name) {
        var tag := "<" + name + PrintAttributes(attributes) + ">";
        assert PrintNode(ModeXml, 0, Html(raw > 0, n)) == "" + tag + "" == tag;
      } else if children == [] {
        PrintNothing(ModeXml, 0);
      } else {
        HtmlIsXml(if raw > 0 || name == "script" then raw + 1 else raw, children);
      }
    case Placeholder(children) => HtmlIsXml(raw, children);
    case _ =>
  }

  /** HTML output of any trees is XML output of the rewritten ones. */
  lemma {:induction false} HtmlIsXml(raw: nat, ns: seq<Node>)
    ensures Print(ModeHtml, raw, ns) == Print(ModeXml, 0, HtmlAll(raw > 0, ns))
    decreases ns, 0
  {
    if ns != [] {
      HtmlNodeIsXml(raw, ns[0]);
      HtmlIsXml(raw, ns[1..]);
      assert HtmlAll(raw > 0, ns)[1..] == HtmlAll(raw > 0, ns[1..]);
    }
  }

  lemma {:induction false} TextNodeIsXml(n: Node)
    ensures PrintNode(ModeText, 0, n) == PrintNode(ModeXml, 0, Plain(n))
    decreases n, 1
  {
    match n
    case Element(name, attributes, children) =>
      if children == [] {
        PrintNothing(ModeXml, 0);
      } else {
        TextIsXml(children);
      }
    case Placeholder(children) => TextIsXml(children);
    case _ =>
  }

  /** Text output keeps the tags of XML: only the empty elements differ. */
  lemma {:induction false} TextIsXml(ns: seq<Node>)
    ensures Print(ModeText, 0, ns) == Print(ModeXml, 0, PlainAll(ns))
    decreases ns, 0
  {
    if ns != [] {
      TextNodeIsXml(ns[0]);
      TextIsXml(ns[1..]);
      assert PlainAll(ns)[1..] == PlainAll(ns[1..]);
    }
  }

  lemma {:induction false} CommonStays(n: Node)
    requires Common(n)
    ensures Html(false, n) == n
    decreases n, 1
  {
    match n
    case Element(_, _, children) => AllCommonStay(children);
    case Placeholder(children) => AllCommonStay(children);
    case _ =>
  }

  lemma {:induction false} AllCommonStay(ns: seq<Node>)
    requires AllCommon(ns)
    ensures HtmlAll(false, ns) == ns
    decreases ns, 0
  {
    if ns != [] {
      CommonStays(ns[0]);
      AllCommonStay(ns[1..]);
    }
  }

  /** Without the six elements, scripts and empty elements HTML output is XML output. */
  lemma HtmlLikeXml(ns: seq<Node>)
    requires AllCommon(ns)
    ensures Print(ModeHtml, 0, ns) == Print(ModeXml, 0, ns)
  {
    HtmlIsXml(0, ns);
    AllCommonStay(ns);
  }

  lemma {:induction false} FilledStays(n: Node)
    requires Filled(n)
    ensures Plain(n) == n
    decreases n, 1
  {
    match n
    case Element(_, _, children) => AllFilledStay(children);
    case Placeholder(children) => AllFilledStay(children);
    case _ =>
  }

  lemma {:induction false} AllFilledStay(ns: seq<Node>)
    requires AllFilled(ns)
    ensures PlainAll(ns) == ns
    decreases ns, 0
  {
    if ns != [] {
      FilledStays(ns[0]);
      AllFilledStay(ns[1..]);
    }
  }

  /** Without empty elements text output is XML output. */
  lemma TextLikeXml(ns: seq<Node>)
    requires AllFilled(ns)
    ensures Print(ModeText, 0, ns) == Print(ModeXml, 0, ns)
  {
    TextIsXml(ns);
    AllFilledStay(ns);
  }
}
