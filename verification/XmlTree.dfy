/**
 XML trees and their serialisation by `output_node_rec`.
 */
module XmlTree {
  import opened Chars
  import opened Wrappers
  import opened Strings

  datatype OutputMode = ModeXml | ModeHtml | ModeText

  datatype Node =
    | Element(name: string, attributes: seq<(string, string)>, children: seq<Node>)
    | Text(content: string, noEscape: bool, cdata: bool)
    | Comment(content: string)
    | Instruction(name: string, data: Option<string>)
    | Placeholder(children: seq<Node>)

  // ---------- what is printed ----------

  /** A character of a text, given the one after it; an ampersand before a hash is left alone. */
  function EscapeTextChar(c: char, next: char): string {
    if c == '<' then "&lt;"
    else if c == '>' then "&gt;"
    else if c == '&' && next != '#' then "&amp;"
    else [c]
  }

  function EscapeValueChar(c: char, next: char): string {
    if c == '"' then "&quot;" else EscapeTextChar(c, next)
  }

  function EscapeText(s: string): string {
    if s == [] then [] else EscapeTextChar(s[0], At(s, 1)) + EscapeText(s[1..])
  }

  function EscapeValue(s: string): string {
    if s == [] then [] else EscapeValueChar(s[0], At(s, 1)) + EscapeValue(s[1..])
  }

  function PrintAttribute(a: (string, string)): string {
    " " + a.0 + "=\"" + EscapeValue(a.1) + "\""
  }

  function PrintAttributes(attributes: seq<(string, string)>): string {
    if attributes == [] then [] else PrintAttribute(attributes[0]) + PrintAttributes(attributes[1..])
  }

  predicate IsVoid(name: string) {
    name in {"img", "meta", "hr", "br", "link", "input"}
  }

  /** The counter below an element: it counts the open elements from the outermost script on. */
  function RawBelow(mode: OutputMode, raw: nat, name: string): nat {
    if raw > 0 || (mode == ModeHtml && name == "script") then raw + 1 else raw
  }

  function PrintNode(mode: OutputMode, raw: nat, n: Node): string
    decreases n, 1
  {
    match n
    case Element(name, attributes, children) =>
      "<" + name + PrintAttributes(attributes) +
      (if mode == ModeHtml && IsVoid(name) then ">"
       else if children != [] then
         ">" + Print(mode, RawBelow(mode, raw, name), children) + "</" + name + ">"
       else if mode == ModeXml then "/>"
       else "></" + name + ">")
    case Text(content, noEscape, cdata) =>
      (if cdata then "<![CDATA[" else "") +
      (if noEscape || raw > 0 then content else EscapeText(content)) +
      (if cdata then "]]>" else "")
    case Comment(content) => "<!--" + content + "-->"
    case Instruction(name, content) =>
      "<?" + name + (if content.Some? then " " + content.value else "") + ">"
    case Placeholder(children) => Print(mode, raw, children)
  }

  function Print(mode: OutputMode, raw: nat, nodes: seq<Node>): string
    decreases nodes, 0
  {
    if nodes == [] then [] else PrintNode(mode, raw, nodes[0]) + Print(mode, raw, nodes[1..])
  }

  lemma PrintCons(mode: OutputMode, raw: nat, n: Node, ns: seq<Node>)
    ensures Print(mode, raw, [n] + ns) == PrintNode(mode, raw, n) + Print(mode, raw, ns)
  {
    assert ([n] + ns)[1..] == ns;
  }

  lemma {:induction false} PrintAppend(mode: OutputMode, raw: nat, ns: seq<Node>, ms: seq<Node>)
    ensures Print(mode, raw, ns + ms) == Print(mode, raw, ns) + Print(mode, raw, ms)
    decreases |ns|
  {
    if ns == [] {
      assert ns + ms == ms;
    } else {
      var n, rest := ns[0], ns[1..];
      assert ns + ms == [n] + (rest + ms) && ns == [n] + rest;
      PrintCons(mode, raw, n, rest + ms);
      PrintCons(mode, raw, n, rest);
      PrintAppend(mode, raw, rest, ms);
      Assoc(PrintNode(mode, raw, n), Print(mode, raw, rest), Print(mode, raw, ms));
    }
  }

  /** A placeholder leaves no trace: it prints exactly like its children in its place. */
  lemma PlaceholderIsTransparent(mode: OutputMode, raw: nat, before: seq<Node>, children: seq<Node>, after: seq<Node>)
    ensures Print(mode, raw, before + [Placeholder(children)] + after) == Print(mode, raw, before + children + after)
  {
    var p := [Placeholder(children)];
    assert p[1..] == [];
    assert Print(mode, raw, p) == Print(mode, raw, children) + "" == Print(mode, raw, children);
    PrintAppend(mode, raw, before + p, after);
    PrintAppend(mode, raw, before, p);
    PrintAppend(mode, raw, before + children, after);
    PrintAppend(mode, raw, before, children);
  }

  // ---------- the printer ----------

  method AddQuotedChar(rtext: XmlString, c: char, next: char)
    requires rtext.Valid() && 2 <= rtext.capacity
    modifies rtext, rtext.data
    ensures rtext.Valid() && 2 <= rtext.capacity && (rtext.data == old(rtext.data) || fresh(rtext.data))
    ensures rtext.text == old(rtext.text) + EscapeTextChar(c, next)
  {
    if c == '<' {
      rtext.AddStr("&lt;");
    } else if c == '>' {
      rtext.AddStr("&gt;");
    } else if c == '&' && next != '#' {
      rtext.AddStr("&amp;");
    } else {
      rtext.AddChar(c);
    }
  }

  method AddQuotedStr(rtext: XmlString, s: string)
    requires rtext.Valid() && 2 <= rtext.capacity
    modifies rtext, rtext.data
    ensures rtext.Valid() && 2 <= rtext.capacity && (rtext.data == old(rtext.data) || fresh(rtext.data))
    ensures rtext.text == old(rtext.text) + EscapeText(s)
  {
    var i := 0;
    assert s[0..] == s;
    while i < |s|
      invariant i <= |s|
      invariant rtext.Valid() && 2 <= rtext.capacity && (rtext.data == old(rtext.data) || fresh(rtext.data))
      invariant rtext.text + EscapeText(s[i..]) == old(rtext.text) + EscapeText(s)
    {
      ghost var before := rtext.text;
      AddQuotedChar(rtext, s[i], At(s, i + 1));
      EscapeStep(s, i);
      Assoc(before, EscapeTextChar(s[i], At(s, i + 1)), EscapeText(s[i + 1..]));
      i := i + 1;
    }
    assert rtext.text + [] == rtext.text;
  }

  lemma EscapeStep(s: string, i: nat)
    requires i < |s|
    ensures EscapeText(s[i..]) == EscapeTextChar(s[i], At(s, i + 1)) + EscapeText(s[i + 1..])
    ensures EscapeValue(s[i..]) == EscapeValueChar(s[i], At(s, i + 1)) + EscapeValue(s[i + 1..])
  {
    assert s[i..][1..] == s[i + 1..];
    assert At(s[i..], 1) == At(s, i + 1);
  }

  method AddQuotedAttributeValue(rtext: XmlString, s: string)
    requires rtext.Valid() && 2 <= rtext.capacity
    modifies rtext, rtext.data
    ensures rtext.Valid() && 2 <= rtext.capacity && (rtext.data == old(rtext.data) || fresh(rtext.data))
    ensures rtext.text == old(rtext.text) + EscapeValue(s)
  {
    var i := 0;
    assert s[0..] == s;
    while i < |s|
      invariant i <= |s|
      invariant rtext.Valid() && 2 <= rtext.capacity && (rtext.data == old(rtext.data) || fresh(rtext.data))
      invariant rtext.text + EscapeValue(s[i..]) == old(rtext.text) + EscapeValue(s)
    {
      ghost var before := rtext.text;
      if s[i] == '"' {
        rtext.AddStr("&quot;");
      } else {
        AddQuotedChar(rtext, s[i], At(s, i + 1));
      }
      EscapeStep(s, i);
      Assoc(before, EscapeValueChar(s[i], At(s, i + 1)), EscapeValue(s[i + 1..]));
      i := i + 1;
    }
    assert rtext.text + [] == rtext.text;
  }

  /** Appends `s` to a text that already ends in `done`. */
  method Put(rtext: XmlString, s: string, ghost start: string, ghost done: string)
    requires rtext.Valid() && 2 <= rtext.capacity && rtext.text == start + done
    modifies rtext, rtext.data
    ensures rtext.Valid() && 2 <= rtext.capacity && (rtext.data == old(rtext.data) || fresh(rtext.data))
    ensures rtext.text == start + (done + s)
  {
    rtext.AddStr(s);
    Assoc(start, done, s);
  }

  method AddAttribute(rtext: XmlString, attribute: (string, string))
    requires rtext.Valid() && 2 <= rtext.capacity
    modifies rtext, rtext.data
    ensures rtext.Valid() && 2 <= rtext.capacity && (rtext.data == old(rtext.data) || fresh(rtext.data))
    ensures rtext.text == old(rtext.text) + PrintAttribute(attribute)
  {
    ghost var start, value := rtext.text, EscapeValue(attribute.1);
    rtext.AddChar(' ');
    Put(rtext, attribute.0, start, " ");
    Put(rtext, "=\"", start, " " + attribute.0);
    AddQuotedAttributeValue(rtext, attribute.1);
    Assoc(start, " " + attribute.0 + "=\"", value);
    Put(rtext, "\"", start, " " + attribute.0 + "=\"" + value);
  }

  method AddAttributes(rtext: XmlString, attributes: seq<(string, string)>)
    requires rtext.Valid() && 2 <= rtext.capacity
    modifies rtext, rtext.data
    ensures rtext.Valid() && 2 <= rtext.capacity && (rtext.data == old(rtext.data) || fresh(rtext.data))
    ensures rtext.text == old(rtext.text) + PrintAttributes(attributes)
  {
    var i := 0;
    assert attributes[0..] == attributes;
    while i < |attributes|
      invariant i <= |attributes|
      invariant rtext.Valid() && 2 <= rtext.capacity && (rtext.data == old(rtext.data) || fresh(rtext.data))
      invariant rtext.text + PrintAttributes(attributes[i..]) == old(rtext.text) + PrintAttributes(attributes)
    {
      ghost var before := rtext.text;
      AddAttribute(rtext, attributes[i]);
      assert attributes[i..][1..] == attributes[i + 1..];
      Assoc(before, PrintAttribute(attributes[i]), PrintAttributes(attributes[i + 1..]));
      i := i + 1;
    }
    assert rtext.text + [] == rtext.text;
  }

  /** The part of the transformation context that the printer works with. */
  class OutputContext {
    const outmode: OutputMode
    var rawout: nat

    constructor (mode: OutputMode)
      ensures outmode == mode && rawout == 0
    {
      outmode := mode;
      rawout := 0;
    }
  }

  /** Appends the nodes and their following siblings, and leaves the raw-output counter as it was. */
  method OutputNodes(nodes: seq<Node>, rtext: XmlString, ctx: OutputContext)
    requires rtext.Valid() && 2 <= rtext.capacity
    modifies rtext, rtext.data, ctx
    ensures rtext.Valid() && 2 <= rtext.capacity && (rtext.data == old(rtext.data) || fresh(rtext.data))
    ensures rtext.text == old(rtext.text) + Print(ctx.outmode, old(ctx.rawout), nodes)
    ensures ctx.rawout == old(ctx.rawout)
    decreases nodes, 0
  {
    var i := 0;
    assert nodes[0..] == nodes;
    while i < |nodes|
      invariant i <= |nodes|
      invariant rtext.Valid() && 2 <= rtext.capacity && (rtext.data == old(rtext.data) || fresh(rtext.data))
      invariant ctx.rawout == old(ctx.rawout)
      invariant rtext.text + Print(ctx.outmode, ctx.rawout, nodes[i..])
             == old(rtext.text) + Print(ctx.outmode, ctx.rawout, nodes)
    {
      ghost var before := rtext.text;
      OutputNode(nodes[i], rtext, ctx);
      assert nodes[i..][1..] == nodes[i + 1..];
      Assoc(before, PrintNode(ctx.outmode, ctx.rawout, nodes[i]), Print(ctx.outmode, ctx.rawout, nodes[i + 1..]));
      i := i + 1;
    }
    assert rtext.text + [] == rtext.text;
  }

  method OutputNode(node: Node, rtext: XmlString, ctx: OutputContext)
    requires rtext.Valid() && 2 <= rtext.capacity
    modifies rtext, rtext.data, ctx
    ensures rtext.Valid() && 2 <= rtext.capacity && (rtext.data == old(rtext.data) || fresh(rtext.data))
    ensures rtext.text == old(rtext.text) + PrintNode(ctx.outmode, old(ctx.rawout), node)
    ensures ctx.rawout == old(ctx.rawout)
    decreases node, 2
  {
    match node
    case Element(name, attributes, children) =>
      OutputElement(node, rtext, ctx);
    case Comment(content) =>
      ghost var start := rtext.text;
      rtext.AddStr("<!--");
      Put(rtext, content, start, "<!--");
      Put(rtext, "-->", start, "<!--" + content);
    case Instruction(name, data) =>
      OutputInstruction(node, rtext, ctx);
    case Text(content, noEscape, cdata) =>
      OutputText(node, rtext, ctx);
    case Placeholder(children) =>
      OutputNodes(children, rtext, ctx);
  }

  method OutputText(node: Node, rtext: XmlString, ctx: OutputContext)
    requires node.Text? && rtext.Valid() && 2 <= rtext.capacity
    modifies rtext, rtext.data
    ensures rtext.Valid() && 2 <= rtext.capacity && (rtext.data == old(rtext.data) || fresh(rtext.data))
    ensures rtext.text == old(rtext.text) + PrintNode(ctx.outmode, ctx.rawout, node)
  {
    ghost var start := rtext.text;
    ghost var open := if node.cdata then "<![CDATA[" else "";
    ghost var body := if node.noEscape || ctx.rawout > 0 then node.content else EscapeText(node.content);
    if node.cdata {
      rtext.AddStr("<![CDATA[");
    }
    assert rtext.text == start + open;
    if node.noEscape || ctx.rawout > 0 {
      rtext.AddStr(node.content);
    } else {
      AddQuotedStr(rtext, node.content);
    }
    Assoc(start, open, body);
    assert rtext.text == start + (open + body);
    if node.cdata {
      Put(rtext, "]]>", start, open + body);
    } else {
      assert open + body + "" == open + body;
    }
  }

  method OutputInstruction(node: Node, rtext: XmlString, ctx: OutputContext)
    requires node.Instruction? && rtext.Valid() && 2 <= rtext.capacity
    modifies rtext, rtext.data
    ensures rtext.Valid() && 2 <= rtext.capacity && (rtext.data == old(rtext.data) || fresh(rtext.data))
    ensures rtext.text == old(rtext.text) + PrintNode(ctx.outmode, ctx.rawout, node)
  {
    ghost var start, open := rtext.text, "<?" + node.name;
    rtext.AddStr("<?");
    Put(rtext, node.name, start, "<?");
    ghost var tail := "";
    if node.data.Some? {
      rtext.AddChar(' ');
      Put(rtext, node.data.value, start + open, " ");
      tail := " " + node.data.value;
    }
    Assoc(start, open, tail);
    assert open + "" == open;
    Put(rtext, ">", start, open + tail);
  }

  method OutputElement(node: Node, rtext: XmlString, ctx: OutputContext)
    requires node.Element? && rtext.Valid() && 2 <= rtext.capacity
    modifies rtext, rtext.data, ctx
    ensures rtext.Valid() && 2 <= rtext.capacity && (rtext.data == old(rtext.data) || fresh(rtext.data))
    ensures rtext.text == old(rtext.text) + PrintNode(ctx.outmode, old(ctx.rawout), node)
    ensures ctx.rawout == old(ctx.rawout)
    decreases node, 1
  {
    ghost var start, open := rtext.text, "<" + node.name + PrintAttributes(node.attributes);
    ghost var tail: string;
    rtext.AddChar('<');
    Put(rtext, node.name, start, "<");
    AddAttributes(rtext, node.attributes);
    Assoc(start, "<" + node.name, PrintAttributes(node.attributes));
    if ctx.outmode == ModeHtml && IsVoid(node.name) {
      tail := ">";
      rtext.AddStr(">");
    } else if node.children != [] {
      tail := OutputContent(node, rtext, ctx);
    } else if ctx.outmode == ModeXml {
      tail := "/>";
      rtext.AddStr("/>");
    } else {
      tail := "></" + node.name + ">";
      rtext.AddStr("></");
      Put(rtext, node.name, start + open, "></");
      Put(rtext, ">", start + open, "></" + node.name);
    }
    Assoc(start, open, tail);
  }

  method PutClosingTag(rtext: XmlString, name: string, ghost start: string, ghost done: string)
    requires rtext.Valid() && 2 <= rtext.capacity && rtext.text == start + done
    modifies rtext, rtext.data
    ensures rtext.Valid() && 2 <= rtext.capacity && (rtext.data == old(rtext.data) || fresh(rtext.data))
    ensures rtext.text == start + (done + "</" + name + ">")
  {
    Put(rtext, "</", start, done);
    Put(rtext, name, start, done + "</");
    Put(rtext, ">", start, done + "</" + name);
  }

  method OutputContent(node: Node, rtext: XmlString, ctx: OutputContext) returns (ghost tail: string)
    requires node.Element? && rtext.Valid() && 2 <= rtext.capacity
    modifies rtext, rtext.data, ctx
    ensures rtext.Valid() && 2 <= rtext.capacity && (rtext.data == old(rtext.data) || fresh(rtext.data))
    ensures tail == ">" + Print(ctx.outmode, RawBelow(ctx.outmode, old(ctx.rawout), node.name),
      node.children) + "</" + node.name + ">"
    ensures rtext.text == old(rtext.text) + tail
    ensures ctx.rawout == old(ctx.rawout)
    decreases node, 0
  {
    ghost var start := rtext.text;
    if ctx.rawout > 0 || (ctx.outmode == ModeHtml && node.name == "script") {
      ctx.rawout := ctx.rawout + 1;
    }
    ghost var inner := Print(ctx.outmode, ctx.rawout, node.children);
    rtext.AddChar('>');
    OutputNodes(node.children, rtext, ctx);
    Assoc(start, ">", inner);
    if ctx.rawout > 0 {
      ctx.rawout := ctx.rawout - 1;
    }
    PutClosingTag(rtext, node.name, start, ">" + inner);
    tail := ">" + inner + "</" + node.name + ">";
  }
}
