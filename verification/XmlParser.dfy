/**
 The scanner of `do_parse`: its states, one turn of its loop, and where the loop ends.
 */
module XmlParser {
  import opened Chars
  import opened Wrappers
  import opened Strings
  import opened XmlScan
  import opened XmlTree

  /** An element whose end has not been seen; attributes are in list order, the last one parsed first. */
  datatype Open = Open(name: string, attributes: seq<(string, string)>, children: seq<Node>)

  datatype Phase =
    | Init | OpenTag | CloseTag | InComment | InText | XmlDecl | InsideTag
    | AttrValue(nameEnd: nat) | CData | Doctype

  /** `open[0]` is the node the C variable `ret` points to, `tag` the element whose tag is being read. */
  datatype State = State(p: nat, phase: Phase, open: seq<Open>, tag: Option<Open>)

  datatype Outcome =
    | Parsed(ret: Open)   // the node `ret` points to when the terminator is reached
    | Rejected            // do_parse returns NULL
    | Overrun             // the scan for a closing mark runs past the terminator
    | Hang                // a turn of the loop that changes nothing but adds an empty attribute
    | Astray              // a closing tag has closed the document itself; the code goes on with no parent

  datatype Turn = Go(next: State) | Stop(outcome: Outcome)

  function Closed(o: Open): Node {
    Element(o.name, o.attributes, o.children)
  }

  function Adopt(open: seq<Open>, n: Node): seq<Open>
    requires open != []
  {
    open[0 := open[0].(children := open[0].children + [n])]
  }

  predicate Fits(doc: string, s: State) {
    && s.p <= |doc|
    && s.open != []
    && (s.phase.InsideTag? ==> s.tag.Some?)
    && (s.phase.AttrValue? ==> s.tag.Some? && s.tag.value.attributes != [] && s.phase.nameEnd < s.p)
  }

  function BangTurn(doc: string, s: State): Turn
    requires Fits(doc, s)
  {
    var p := s.p;
    if Stands(doc, p, "!--") then Go(s.(p := p + 3, phase := InComment))
    else if Stands(doc, p, "![CDATA[") then Go(s.(p := p + 8, phase := CData))
    else if Stands(doc, p, "!DOCTYPE") then Go(s.(p := p + 8, phase := Doctype))
    else Stop(Rejected)
  }

  function OpenTurn(doc: string, s: State): Turn
    requires Fits(doc, s) && s.p < |doc|
  {
    var p := s.p;
    if doc[p] == '?' then Go(s.(p := p + 1, phase := XmlDecl))
    else if doc[p] == '!' then BangTurn(doc, s)
    else if doc[p] == '/' then Go(s.(p := p + 1, phase := CloseTag))
    else
      var q := SkipSpaces(doc, p);
      var e := NameEnd(doc, q);
      Go(State(SkipSpaces(doc, e), InsideTag, s.open, Some(Open(doc[q..e], [], []))))
  }

  function CloseTurn(doc: string, s: State): Turn
    requires Fits(doc, s)
  {
    var q := SkipSpaces(doc, s.p);
    var e := NameEnd(doc, q);
    if doc[q..e] <= s.open[0].name then
      match Find(doc, e, '>')
      case None => Stop(Overrun)
      case Some(r) =>
        if |s.open| == 1 then Stop(Astray)
        else Go(s.(p := r + 1, phase := InText, open := Adopt(s.open[1..], Closed(s.open[0]))))
    else Stop(Rejected)
  }

  function InsideTagTurn(doc: string, s: State): Turn
    requires Fits(doc, s) && s.p < |doc| && s.tag.Some?
  {
    var p := s.p;
    if doc[p] == '>' then Go(State(p + 1, InText, [s.tag.value] + s.open, None))
    else if doc[p] == '/' && At(doc, p + 1) == '>' then
      Go(State(p + 2, InText, Adopt(s.open, Closed(s.tag.value)), None))
    else AttributeTurn(doc, s)
  }

  function AttributeTurn(doc: string, s: State): Turn
    requires Fits(doc, s) && s.tag.Some?
  {
    var p := s.p;
    var q := SkipSpaces(doc, p);
    var e := NameEnd(doc, q);
    var r := SkipSpaces(doc, e);
    var t := s.tag.value.(attributes := [(doc[q..e], "")] + s.tag.value.attributes);
    if At(doc, r) == '=' then Go(State(SkipSpaces(doc, r + 1), AttrValue(e), s.open, Some(t)))
    else if r == p then Stop(Hang)
    else Go(State(r, InsideTag, s.open, Some(t)))
  }

  function AttrValueTurn(doc: string, s: State): Turn
    requires Fits(doc, s) && s.p < |doc| && s.phase.AttrValue?
  {
    var quote := doc[s.p];
    if quote != '"' && quote != '\'' && quote != '`' then
      // the error state set here is overwritten at once; scanning resumes after the name
      Go(s.(p := SkipSpaces(doc, s.phase.nameEnd + 1), phase := InsideTag))
    else
      match Find(doc, s.p + 1, quote)
      case None => Stop(Overrun)
      case Some(c) =>
        var value := Unescape(doc, s.p + 1, c);
        var t := s.tag.value;
        Go(State(SkipSpaces(doc, c + 1), InsideTag, s.open,
                 Some(t.(attributes := t.attributes[0 := (t.attributes[0].0, value)]))))
  }

  function TextTurn(doc: string, s: State): Turn
    requires Fits(doc, s)
  {
    var c := match Find(doc, s.p, '<') case None => |doc| case Some(c) => c;
    if c > s.p then
      Go(State(c, Init, Adopt(s.open, Text(Unescape(doc, s.p, c), false, false)), s.tag))
    else Go(s.(phase := Init))
  }

  function CDataTurn(doc: string, s: State): Turn
    requires Fits(doc, s)
  {
    match FindStr(doc, s.p, "]]>")
    case None => Stop(Overrun)
    case Some(c) =>
      if c > s.p then Go(State(c + 3, InText, Adopt(s.open, Text(doc[s.p..c], true, false)), s.tag))
      else Go(s.(phase := InText))
  }

  /** One turn of the loop of `do_parse`. */
  function Step(doc: string, s: State): (t: Turn)
    requires Fits(doc, s) && s.p < |doc|
    ensures t.Go? ==> Fits(doc, t.next)
  {
    match s.phase
    case Init => Go(s.(p := s.p + 1, phase := if doc[s.p] == '<' then OpenTag else Init))
    case XmlDecl =>
      (match FindStr(doc, s.p, "?>")
       case None => Stop(Overrun)
       case Some(q) => Go(s.(p := q + 2, phase := Init)))
    case InComment =>
      if Stands(doc, s.p, "-->") then Go(s.(p := s.p + 3, phase := InText)) else Go(s.(p := s.p + 1))
    case OpenTag => OpenTurn(doc, s)
    case CloseTag => CloseTurn(doc, s)
    case InsideTag => InsideTagTurn(doc, s)
    case CData => CDataTurn(doc, s)
    case Doctype =>
      (match FindStr(doc, s.p, "]>")
       case None => Stop(Overrun)
       case Some(q) => Go(s.(p := q + 2, phase := InText)))
    case InText => TextTurn(doc, s)
    case AttrValue(_) => AttrValueTurn(doc, s)
  }

  function Left(doc: string, s: State): int {
    |doc| - if s.phase.AttrValue? then s.phase.nameEnd else s.p
  }

  function Rank(phase: Phase): nat {
    match phase
    case AttrValue(_) => 0
    case Init => 1
    case InsideTag => 1
    case InText => 2
    case CData => 3
    case _ => 4
  }

  ghost predicate Progress(doc: string, s: State, t: State) {
    0 <= Left(doc, t) < Left(doc, s) || (Left(doc, t) == Left(doc, s) && Rank(t.phase) < Rank(s.phase))
  }

  lemma TagProgress(doc: string, s: State)
    requires Fits(doc, s) && s.p < |doc| && s.phase.InsideTag? && Step(doc, s).Go?
    ensures Progress(doc, s, Step(doc, s).next)
  {
  }

  lemma MarkupProgress(doc: string, s: State)
    requires Fits(doc, s) && s.p < |doc| && (s.phase.OpenTag? || s.phase.CloseTag?) && Step(doc, s).Go?
    ensures Progress(doc, s, Step(doc, s).next)
  {
  }

  lemma ValueProgress(doc: string, s: State)
    requires Fits(doc, s) && s.p < |doc| && s.phase.AttrValue? && Step(doc, s).Go?
    ensures Progress(doc, s, Step(doc, s).next)
  {
  }

  lemma TextProgress(doc: string, s: State)
    requires Fits(doc, s) && s.p < |doc| && (s.phase.InText? || s.phase.CData?) && Step(doc, s).Go?
    ensures Progress(doc, s, Step(doc, s).next)
  {
  }

  lemma OtherProgress(doc: string, s: State)
    requires Fits(doc, s) && s.p < |doc| && Step(doc, s).Go?
    requires s.phase.Init? || s.phase.XmlDecl? || s.phase.InComment? || s.phase.Doctype?
    ensures Progress(doc, s, Step(doc, s).next)
  {
  }

  /** Every turn that goes on makes progress. */
  lemma StepProgress(doc: string, s: State)
    requires Fits(doc, s) && s.p < |doc| && Step(doc, s).Go?
    ensures Progress(doc, s, Step(doc, s).next)
  {
    match s.phase
    case InsideTag => TagProgress(doc, s);
    case OpenTag => MarkupProgress(doc, s);
    case CloseTag => MarkupProgress(doc, s);
    case AttrValue(_) => ValueProgress(doc, s);
    case InText => TextProgress(doc, s);
    case CData => TextProgress(doc, s);
    case _ => OtherProgress(doc, s);
  }

  /** What `ret` points to; an element whose tag is unfinished is already linked below it. */
  function Result(s: State): Open
    requires s.open != []
  {
    match s.tag
    case None => s.open[0]
    case Some(t) => Adopt(s.open, Closed(t))[0]
  }

  /** The loop of `do_parse` from state `s` on. */
  function ParseFrom(doc: string, s: State): Outcome
    requires Fits(doc, s)
    decreases Left(doc, s), Rank(s.phase)
  {
    if s.p == |doc| then Parsed(Result(s))
    else
      match Step(doc, s)
      case Stop(outcome) => outcome
      case Go(t) => StepProgress(doc, s); ParseFrom(doc, t)
  }

  const Root := Open("root", [], [])

  function Begin(): State {
    State(0, Init, [Root], None)
  }

  function Parse(doc: string): Outcome {
    ParseFrom(doc, Begin())
  }
}
