/**
 What the parser makes of the markup the printer of a parsed tree never writes: comments, CDATA sections,
 declarations, the three kinds of quotes, attributes without a value, and what it refuses.
 */
module XmlMarkup {
  import opened Chars
  import opened Wrappers
  import opened Strings
  import opened XmlScan
  import opened XmlTree
  import opened XmlParser
  import opened XmlLocal
  import opened XmlRoundTrip

  // ---------- words ----------

  predicate IsBlank(s: string) {
    forall i | 0 <= i < |s| :: IsSpace(s[i])
  }

  /** The characters of a name, by their codes: hyphen, digits, colon, capitals, underscore, small letters. */
  lemma NameCharacters(c: char)
    ensures CanName(c) <==>
      var n := c as int;
      n == 45 || 48 <= n <= 58 || 65 <= n <= 90 || n == 95 || 97 <= n <= 122
  {
    assert '9' as int == 57 && 'A' as int == 65 && 'z' as int == 122;
  }

  /** The blanks: tab, line feed, carriage return, space. */
  lemma BlankCharacters(c: char)
    ensures IsSpace(c) <==> c as int in {9, 10, 13, 32}
  {
    assert '\t' as int == 9 && '\r' as int == 13;
  }

  /** Nothing of `s` is the mark, not even where it runs into the mark that closes it. */
  predicate Without(s: string, mark: string) {
    forall i | 0 <= i < |s| :: !Stands(s + mark, i, mark)
  }

  /** A text between two marks. */
  lemma Marked(doc: string, p: nat, a: string, c: string, b: string)
    requires Stands(doc, p, a + c + b)
    ensures Stands(doc, p, a) && Stands(doc, p + |a|, c + b)
    ensures Stands(doc, p + |a|, c) && Stands(doc, p + |a| + |c|, b)
  {
    assert a + c + b == a + (c + b);
    StandsSplit(doc, p, a, c + b);
    StandsSplit(doc, p + |a|, c, b);
  }

  lemma WithoutAt(doc: string, p: nat, s: string, mark: string, k: nat)
    requires Stands(doc, p, s + mark) && Without(s, mark) && k < |s|
    ensures !Stands(doc, p + k, mark)
  {
    var x := s + mark;
    assert !Stands(x, k, mark);
    assert doc[p..p + |x|] == x;
    Sliced(doc, p, |x|, k, |mark|);
  }

  lemma Sliced(doc: string, p: nat, n: nat, k: nat, m: nat)
    requires p + n <= |doc| && k + m <= n
    ensures doc[p..p + n][k..k + m] == doc[p + k..p + k + m]
  {
    var x, y := doc[p..p + n][k..k + m], doc[p + k..p + k + m];
    assert forall i | 0 <= i < m :: x[i] == y[i];
  }

  lemma {:induction false} Found(doc: string, p: nat, s: string, mark: string, k: nat)
    requires Stands(doc, p, s + mark) && Without(s, mark) && k <= |s|
    ensures FindStr(doc, p + k, mark) == Some(p + |s|)
    decreases |s| - k
  {
    StandsSplit(doc, p, s, mark);
    if k < |s| {
      WithoutAt(doc, p, s, mark, k);
      Found(doc, p, s, mark, k + 1);
    }
  }

  lemma {:induction false} NotFound(doc: string, p: nat, mark: string)
    requires forall i | p <= i :: !Stands(doc, i, mark)
    ensures FindStr(doc, p, mark) == None
    decreases |doc| - p
  {
    if p <= |doc| {
      NotFound(doc, p + 1, mark);
    }
  }

  lemma BlanksEnd(doc: string, p: nat, w: string)
    requires Stands(doc, p, w) && IsBlank(w) && !IsSpace(At(doc, p + |w|))
    ensures SkipSpaces(doc, p) == p + |w|
  {
    forall k | p <= k < p + |w| ensures IsSpace(doc[k]) {
      StandsAt(doc, p, w, k - p);
    }
  }

  // ---------- turns ----------

  /** Whatever follows the loop finds the same from `s` as from `t`. */
  ghost predicate Leads(doc: string, s: State, t: State) {
    Fits(doc, s) && Fits(doc, t) && forall f: State -> Outcome | Follows(doc, f) :: f(s) == f(t)
  }

  /** So the outcome is the same. */
  lemma LeadsMeans(doc: string, s: State, t: State)
    requires Leads(doc, s, t)
    ensures ParseFrom(doc, s) == ParseFrom(doc, t)
  {
    var f := (x: State) => if Fits(doc, x) then ParseFrom(doc, x) else Rejected;
    assert Follows(doc, f);
    assert f(s) == f(t);
  }

  lemma Turn(doc: string, s: State, t: State)
    requires Fits(doc, s) && s.p < |doc| && Step(doc, s) == Go(t)
    ensures Leads(doc, s, t)
  {
    forall f: State -> Outcome | Follows(doc, f) ensures Fits(doc, t) && f(s) == f(t) {
      OneTurn(doc, f, s, t);
    }
  }

  /** The turn of a phase is a turn of the loop. */
  lemma TurnOf(doc: string, s: State, t: State)
    requires Fits(doc, s) && s.p < |doc|
    requires s.phase == OpenTag ==> OpenTurn(doc, s) == Go(t)
    requires s.phase == CloseTag ==> CloseTurn(doc, s) == Go(t)
    requires s.phase == InsideTag ==> InsideTagTurn(doc, s) == Go(t)
    requires s.phase == CData ==> CDataTurn(doc, s) == Go(t)
    requires s.phase.AttrValue? ==> AttrValueTurn(doc, s) == Go(t)
    requires s.phase in {OpenTag, CloseTag, InsideTag, CData} || s.phase.AttrValue?
    ensures Leads(doc, s, t)
  {
    Turn(doc, s, t);
  }

  lemma LastTurn(doc: string, s: State, t: State, outcome: Outcome)
    requires Leads(doc, s, t) && t.p < |doc| && Step(doc, t) == Stop(outcome)
    ensures ParseFrom(doc, s) == outcome
  {
    LeadsMeans(doc, s, t);
  }

  /** Where markup can begin: in a text or before it. */
  predicate Outside(doc: string, s: State) {
    Fits(doc, s) && (s.phase == InText || s.phase == Init)
  }

  lemma Bracket(doc: string, s: State)
    requires Outside(doc, s) && s.p < |doc| && doc[s.p] == '<'
    ensures Leads(doc, s, s.(p := s.p + 1, phase := OpenTag))
  {
    var t := s.(phase := Init);
    if s.phase == InText {
      assert Find(doc, s.p, '<') == Some(s.p);
      Turn(doc, s, t);
    }
    Turn(doc, t, s.(p := s.p + 1, phase := OpenTag));
  }

  /** The opening bracket and the word behind it. */
  lemma Bang(doc: string, s: State, word: string, phase: Phase)
    requires Outside(doc, s) && Stands(doc, s.p, "<" + word)
    requires (word, phase) in {("!--", InComment), ("![CDATA[", CData), ("!DOCTYPE", Doctype)}
    requires s.p + 1 + |word| < |doc|
    ensures Leads(doc, s, s.(p := s.p + 1 + |word|, phase := phase))
  {
    StandsSplit(doc, s.p, "<", word);
    StandsAt(doc, s.p, "<", 0);
    Bracket(doc, s);
    var o := s.(p := s.p + 1, phase := OpenTag);
    StandsAt(doc, o.p, word, 0);
    StandsAt(doc, o.p, word, 1);
    if word == "!--" {
      OtherWord(doc, o.p, word, "![CDATA[");
    } else {
      OtherWord(doc, o.p, word, "!--");
      if word == "!DOCTYPE" { OtherWord(doc, o.p, word, "![CDATA["); }
    }
    assert OpenTurn(doc, o) == BangTurn(doc, o);
    Turn(doc, o, s.(p := s.p + 1 + |word|, phase := phase));
  }

  lemma OtherWord(doc: string, p: nat, word: string, other: string)
    requires Stands(doc, p, word) && |word| > 1 && |other| > 1 && word[1] != other[1]
    ensures !Stands(doc, p, other)
  {
    StandsAt(doc, p, word, 1);
    if Stands(doc, p, other) {
      StandsAt(doc, p, other, 1);
    }
  }

  lemma {:induction false} InsideComment(doc: string, s: State, c: string, k: nat)
    requires Fits(doc, s) && s.phase == InComment && Stands(doc, s.p, c + "-->") && Without(c, "-->") && k <= |c|
    ensures Leads(doc, s.(p := s.p + k), s.(p := s.p + |c| + 3, phase := InText))
    decreases |c| - k
  {
    StandsSplit(doc, s.p, c, "-->");
    var t := s.(p := s.p + k);
    if k < |c| {
      WithoutAt(doc, s.p, c, "-->", k);
      Turn(doc, t, s.(p := s.p + k + 1));
      InsideComment(doc, s, c, k + 1);
    } else {
      Turn(doc, t, s.(p := s.p + |c| + 3, phase := InText));
    }
  }

  /** A comment leaves no trace. */
  lemma CommentIsSkipped(doc: string, s: State, c: string)
    requires Outside(doc, s) && Stands(doc, s.p, "<!--" + c + "-->") && Without(c, "-->")
    ensures Leads(doc, s, s.(p := s.p + |c| + 7, phase := InText))
  {
    Marked(doc, s.p, "<!--", c, "-->");
    assert "<!--" == "<" + "!--";
    Bang(doc, s, "!--", InComment);
    var t := s.(p := s.p + 4, phase := InComment);
    InsideComment(doc, t, c, 0);
    assert t.(p := t.p + 0) == t;
    assert t.(p := t.p + |c| + 3, phase := InText) == s.(p := s.p + |c| + 7, phase := InText);
  }

  lemma CDataTurnIs(doc: string, s: State, c: string)
    requires Fits(doc, s) && s.phase == CData && Stands(doc, s.p, c + "]]>") && Without(c, "]]>") && c != ""
    ensures Stands(doc, s.p + |c|, "]]>") && doc[s.p..s.p + |c|] == c
    ensures CDataTurn(doc, s) ==
            Go(s.(p := s.p + |c| + 3, phase := InText, open := Adopt(s.open, Text(c, true, false))))
  {
    Found(doc, s.p, c, "]]>", 0);
    StandsSplit(doc, s.p, c, "]]>");
  }

  /** A CDATA section is a text that is not escaped when it is printed; its characters are taken as they are. */
  lemma CDataIsText(doc: string, s: State, c: string)
    requires Outside(doc, s) && Stands(doc, s.p, "<![CDATA[" + c + "]]>") && Without(c, "]]>") && c != ""
    ensures Leads(doc, s, s.(p := s.p + |c| + 12, phase := InText, open := Adopt(s.open, Text(c, true, false))))
  {
    Marked(doc, s.p, "<![CDATA[", c, "]]>");
    assert "<![CDATA[" == "<" + "![CDATA[";
    Bang(doc, s, "![CDATA[", CData);
    var t := s.(p := s.p + 9, phase := CData);
    CDataTurnIs(doc, t, c);
    TurnOf(doc, t, s.(p := s.p + |c| + 12, phase := InText, open := Adopt(s.open, Text(c, true, false))));
  }

  /** An empty one is not: its closing mark is read as text. */
  lemma EmptyCData(doc: string, s: State)
    requires Outside(doc, s) && Stands(doc, s.p, "<![CDATA[" + "]]>")
    ensures Leads(doc, s, s.(p := s.p + 9, phase := InText)) && Stands(doc, s.p + 9, "]]>")
  {
    StandsSplit(doc, s.p, "<![CDATA[", "]]>");
    assert "<![CDATA[" == "<" + "![CDATA[";
    Bang(doc, s, "![CDATA[", CData);
    var t := s.(p := s.p + 9, phase := CData);
    assert "" + "]]>" == "]]>";
    Found(doc, t.p, "", "]]>", 0);
    Turn(doc, t, s.(p := s.p + 9, phase := InText));
  }

  /** A document type ends at the first bracket pair; behind it a text can begin. */
  lemma DoctypeIsSkipped(doc: string, s: State, c: string)
    requires Outside(doc, s) && Stands(doc, s.p, "<!DOCTYPE" + c + "]>") && Without(c, "]>")
    ensures Leads(doc, s, s.(p := s.p + |c| + 11, phase := InText))
  {
    Marked(doc, s.p, "<!DOCTYPE", c, "]>");
    assert "<!DOCTYPE" == "<" + "!DOCTYPE";
    Bang(doc, s, "!DOCTYPE", Doctype);
    var t := s.(p := s.p + 9, phase := Doctype);
    Found(doc, t.p, c, "]>", 0);
    Turn(doc, t, s.(p := s.p + |c| + 11, phase := InText));
  }

  /** Without such a pair the scan runs out of the document. */
  lemma DoctypeOverruns(doc: string, s: State)
    requires Outside(doc, s) && Stands(doc, s.p, "<!DOCTYPE") && s.p + 9 < |doc|
    requires forall i | s.p + 9 <= i :: !Stands(doc, i, "]>")
    ensures ParseFrom(doc, s) == Overrun
  {
    assert "<!DOCTYPE" == "<" + "!DOCTYPE";
    Bang(doc, s, "!DOCTYPE", Doctype);
    NotFound(doc, s.p + 9, "]>");
    LastTurn(doc, s, s.(p := s.p + 9, phase := Doctype), Overrun);
  }

  lemma QuestionMark(doc: string, s: State)
    requires Outside(doc, s) && Stands(doc, s.p, "<?") && s.p + 2 < |doc|
    ensures Leads(doc, s, s.(p := s.p + 2, phase := XmlDecl))
  {
    StandsAt(doc, s.p, "<?", 0);
    StandsAt(doc, s.p, "<?", 1);
    Bracket(doc, s);
    Turn(doc, s.(p := s.p + 1, phase := OpenTag), s.(p := s.p + 2, phase := XmlDecl));
  }

  /** A declaration or processing instruction leaves no trace, and the text behind it is lost too. */
  lemma InstructionIsSkipped(doc: string, s: State, c: string)
    requires Outside(doc, s) && Stands(doc, s.p, "<?" + c + "?>") && Without(c, "?>")
    ensures Leads(doc, s, s.(p := s.p + |c| + 4, phase := Init))
  {
    Marked(doc, s.p, "<?", c, "?>");
    QuestionMark(doc, s);
    var t := s.(p := s.p + 2, phase := XmlDecl);
    Found(doc, t.p, c, "?>", 0);
    Turn(doc, t, s.(p := s.p + |c| + 4, phase := Init));
  }

  lemma {:induction false} LostText(doc: string, s: State, e: nat)
    requires Fits(doc, s) && s.phase == Init && s.p <= e <= |doc| && forall k | s.p <= k < e :: doc[k] != '<'
    ensures Leads(doc, s, s.(p := e))
    decreases e - s.p
  {
    if s.p < e {
      Turn(doc, s, s.(p := s.p + 1));
      LostText(doc, s.(p := s.p + 1), e);
    }
  }

  /** Any other exclamation mark is refused. */
  lemma BangIsRefused(doc: string, s: State)
    requires Outside(doc, s) && Stands(doc, s.p, "<!")
    requires !Stands(doc, s.p, "<!--") && !Stands(doc, s.p, "<![CDATA[") && !Stands(doc, s.p, "<!DOCTYPE")
    ensures ParseFrom(doc, s) == Rejected
  {
    StandsAt(doc, s.p, "<!", 0);
    StandsAt(doc, s.p, "<!", 1);
    Bracket(doc, s);
    Behind(doc, s.p, "!--");
    Behind(doc, s.p, "![CDATA[");
    Behind(doc, s.p, "!DOCTYPE");
    assert "<" + "!--" == "<!--" && "<" + "![CDATA[" == "<![CDATA[" && "<" + "!DOCTYPE" == "<!DOCTYPE";
    LastTurn(doc, s, s.(p := s.p + 1, phase := OpenTag), Rejected);
  }

  lemma Behind(doc: string, p: nat, word: string)
    requires p < |doc| && doc[p] == '<'
    ensures Stands(doc, p, "<" + word) <==> Stands(doc, p + 1, word)
  {
    if Stands(doc, p + 1, word) {
      assert doc[p..p + 1 + |word|] == [doc[p]] + doc[p + 1..p + 1 + |word|];
    }
    if Stands(doc, p, "<" + word) {
      StandsSplit(doc, p, "<", word);
    }
  }

  // ---------- what the printer writes for them ----------

  /** A printed comment is skipped. */
  lemma PrintedComment(doc: string, s: State, mode: OutputMode, raw: nat, c: string)
    requires Outside(doc, s) && Stands(doc, s.p, PrintNode(mode, raw, Comment(c))) && Without(c, "-->")
    ensures Leads(doc, s, s.(p := s.p + |c| + 7, phase := InText))
  {
    CommentIsSkipped(doc, s, c);
  }

  /** A text printed as CDATA without escapes comes back, marked as one that is not escaped. */
  lemma PrintedCData(doc: string, s: State, mode: OutputMode, raw: nat, c: string)
    requires Outside(doc, s) && Stands(doc, s.p, PrintNode(mode, raw, Text(c, true, true)))
    requires Without(c, "]]>") && c != ""
    ensures Leads(doc, s, s.(p := s.p + |c| + 12, phase := InText, open := Adopt(s.open, Text(c, true, false))))
  {
    CDataIsText(doc, s, c);
  }

  /** A text printed as CDATA is escaped all the same if it is not marked, and the references stay in it. */
  lemma EscapedCData(doc: string, s: State, mode: OutputMode, c: string)
    requires Outside(doc, s) && Stands(doc, s.p, PrintNode(mode, 0, Text(c, false, true)))
    requires Without(EscapeText(c), "]]>") && EscapeText(c) != ""
    ensures Leads(doc, s, s.(p := s.p + |EscapeText(c)| + 12, phase := InText,
                             open := Adopt(s.open, Text(EscapeText(c), true, false))))
  {
    CDataIsText(doc, s, EscapeText(c));
  }

  /** A printed processing instruction closes with a bracket alone: it cannot be read back. */
  lemma PrintedInstruction(doc: string, s: State, mode: OutputMode, raw: nat, name: string, data: Option<string>)
    requires Outside(doc, s) && Stands(doc, s.p, PrintNode(mode, raw, Instruction(name, data)))
    requires forall i | s.p + 2 <= i :: !Stands(doc, i, "?>")
    ensures ParseFrom(doc, s) == Overrun
  {
    var rest := name + (if data.Some? then " " + data.value else "") + ">";
    assert PrintNode(mode, raw, Instruction(name, data)) == "<?" + rest;
    StandsSplit(doc, s.p, "<?", rest);
    QuestionMark(doc, s);
    NotFound(doc, s.p + 2, "?>");
    LastTurn(doc, s, s.(p := s.p + 2, phase := XmlDecl), Overrun);
  }

  // ---------- tags ----------

  /** Blanks, a name, blanks again, and then something else. */
  ghost predicate Word(doc: string, p: nat, w: string, name: string, v: string) {
    && IsBlank(w) && AllName(name) && IsBlank(v)
    && Stands(doc, p, w) && Stands(doc, p + |w|, name) && Stands(doc, p + |w| + |name|, v)
    && !IsSpace(At(doc, p + |w| + |name| + |v|)) && !CanName(At(doc, p + |w| + |name| + |v|))
  }

  lemma WordIs(doc: string, p: nat, w: string, name: string, v: string)
    requires Word(doc, p, w, name, v) && name != ""
    ensures SkipSpaces(doc, p) == p + |w| && NameEnd(doc, p + |w|) == p + |w| + |name|
    ensures SkipSpaces(doc, p + |w| + |name|) == p + |w| + |name| + |v|
    ensures doc[p + |w|..p + |w| + |name|] == name
    ensures p < |doc| && (IsSpace(doc[p]) || CanName(doc[p]))
  {
    StandsAt(doc, p + |w|, name, 0);
    assert CanName(name[0]);
    BlanksEnd(doc, p, w);
    BlanksEnd(doc, p + |w| + |name|, v);
    if v != "" {
      StandsAt(doc, p + |w| + |name|, v, 0);
    }
    if w != "" {
      StandsAt(doc, p, w, 0);
    }
    NameStands(doc, p + |w|, name);
  }

  /** Behind the bracket, blanks and the name; then blanks again. */
  lemma TagBegins(doc: string, s: State, w: string, name: string, v: string)
    requires Outside(doc, s) && s.p < |doc| && doc[s.p] == '<' && Word(doc, s.p + 1, w, name, v) && name != ""
    ensures Leads(doc, s, State(s.p + 1 + |w| + |name| + |v|, InsideTag, s.open, Some(Open(name, [], []))))
  {
    Bracket(doc, s);
    WordIs(doc, s.p + 1, w, name, v);
    var o := s.(p := s.p + 1, phase := OpenTag);
    var t := State(s.p + 1 + |w| + |name| + |v|, InsideTag, s.open, Some(Open(name, [], [])));
    assert OpenTurn(doc, o) == Go(t);
    TurnOf(doc, o, t);
  }

  lemma NameBegins(doc: string, p: nat, name: string, v: string)
    requires Word(doc, p, "", name, v) && name != ""
    ensures p < |doc| && doc[p] != '>' && doc[p] != '/' && !IsSpace(doc[p])
    ensures NameEnd(doc, p) == p + |name| && SkipSpaces(doc, p + |name|) == p + |name| + |v| <= |doc|
    ensures SkipSpaces(doc, p) == p && doc[p..p + |name|] == name
  {
    WordIs(doc, p, "", name, v);
    StandsAt(doc, p, name, 0);
    assert CanName(name[0]);
  }

  /** An attribute without a value has the empty one; it stands before those read earlier. */
  lemma AttributeAlone(doc: string, s: State, tag: Open, name: string, v: string)
    requires Fits(doc, s) && s.phase == InsideTag && s.tag == Some(tag)
    requires Word(doc, s.p, "", name, v) && name != "" && At(doc, s.p + |name| + |v|) != '='
    ensures Leads(doc, s, s.(p := s.p + |name| + |v|, tag := Some(tag.(attributes := [(name, "")] + tag.attributes))))
  {
    NameBegins(doc, s.p, name, v);
    var t := s.(p := s.p + |name| + |v|, tag := Some(tag.(attributes := [(name, "")] + tag.attributes)));
    assert AttributeTurn(doc, s) == Go(t);
    assert InsideTagTurn(doc, s) == Go(t);
    TurnOf(doc, s, t);
  }

  /** A value in quotes of one of three kinds. */
  ghost predicate Quoted(doc: string, p: nat, quote: char, value: string) {
    quote in {'"', '\'', '`'} && quote !in value && Stands(doc, p, [quote] + value + [quote])
  }

  /** A name from `p` to `e`, then an equals sign, then something else at `q`. */
  ghost predicate NamedAt(doc: string, p: nat, e: nat, name: string, q: nat) {
    && p < e < q <= |doc| && NameEnd(doc, p) == e && doc[p..e] == name
    && SkipSpaces(doc, p) == p && doc[p] != '>' && doc[p] != '/'
    && At(doc, SkipSpaces(doc, e)) == '=' && SkipSpaces(doc, e) + 1 <= |doc|
    && SkipSpaces(doc, SkipSpaces(doc, e) + 1) == q
  }

  /** So it is where the text says it, with blanks on either side of the sign. */
  lemma NamedIs(doc: string, p: nat, name: string, v: string, w: string)
    requires Word(doc, p, "", name, v) && name != "" && At(doc, p + |name| + |v|) == '='
    requires Stands(doc, p + |name| + |v| + 1, w) && IsBlank(w) && !IsSpace(At(doc, p + |name| + |v| + 1 + |w|))
    ensures NamedAt(doc, p, p + |name|, name, p + |name| + |v| + 1 + |w|)
  {
    NameBegins(doc, p, name, v);
    BlanksEnd(doc, p + |name| + |v| + 1, w);
  }

  function WithAttribute(tag: Open, name: string, value: string): Open {
    tag.(attributes := [(name, value)] + tag.attributes)
  }

  lemma NamePart(doc: string, s: State, tag: Open, e: nat, name: string, q: nat)
    requires Fits(doc, s) && s.phase == InsideTag && s.tag == Some(tag) && NamedAt(doc, s.p, e, name, q)
    ensures Leads(doc, s, State(q, AttrValue(e), s.open, Some(WithAttribute(tag, name, ""))))
  {
    var t := State(q, AttrValue(e), s.open, Some(WithAttribute(tag, name, "")));
    assert AttributeTurn(doc, s) == Go(t);
    assert InsideTagTurn(doc, s) == Go(t);
    TurnOf(doc, s, t);
  }

  lemma QuotedValue(doc: string, p: nat, quote: char, value: string)
    requires Quoted(doc, p, quote, value)
    ensures p + |value| + 1 < |doc| && doc[p] == quote && Find(doc, p + 1, quote) == Some(p + |value| + 1)
    ensures Stands(doc, p + 1, value) && doc[p + |value| + 1] == quote
  {
    Marked(doc, p, [quote], value, [quote]);
    StandsAt(doc, p, [quote], 0);
    StandsAt(doc, p + 1 + |value|, [quote], 0);
    forall k | p + 1 <= k < p + 1 + |value| ensures doc[k] != quote {
      StandsAt(doc, p + 1, value, k - (p + 1));
    }
  }

  /** A quote at `p`, its partner at `c`, and what is read between them. */
  ghost predicate ValueAt(doc: string, p: nat, c: nat, read: string) {
    && p < |doc| && doc[p] in {'"', '\'', '`'} && Find(doc, p + 1, doc[p]) == Some(c)
    && Unescape(doc, p + 1, c) == read
  }

  lemma ReadAlone(doc: string, p: nat, value: string)
    requires Stands(doc, p, value) && At(doc, p + |value|) in {'"', '\'', '`'}
    ensures p + |value| <= |doc| && Unescape(doc, p, p + |value|) == Unescape(value, 0, |value|)
  {
    UnescapeLocal(doc, p, value);
  }

  lemma ValueIs(doc: string, p: nat, quote: char, value: string) returns (read: string)
    requires Quoted(doc, p, quote, value)
    ensures ValueAt(doc, p, p + |value| + 1, read) && read == Unescape(value, 0, |value|)
  {
    QuotedValue(doc, p, quote, value);
    ReadAlone(doc, p + 1, value);
    read := Unescape(doc, p + 1, p + |value| + 1);
  }

  lemma ValuePart(doc: string, s: State, tag: Open, name: string, c: nat, read: string)
    requires Fits(doc, s) && s.phase.AttrValue? && s.tag == Some(WithAttribute(tag, name, ""))
    requires ValueAt(doc, s.p, c, read)
    ensures Leads(doc, s, State(SkipSpaces(doc, c + 1), InsideTag, s.open, Some(WithAttribute(tag, name, read))))
  {
    assert ([(name, "")] + tag.attributes)[0 := (name, read)] == [(name, read)] + tag.attributes;
    var t := State(SkipSpaces(doc, c + 1), InsideTag, s.open, Some(WithAttribute(tag, name, read)));
    assert AttrValueTurn(doc, s) == Go(t);
    TurnOf(doc, s, t);
  }

  lemma WholeAttribute(doc: string, s: State, tag: Open, e: nat, name: string, q: nat, c: nat, read: string)
    requires Fits(doc, s) && s.phase == InsideTag && s.tag == Some(tag) && NamedAt(doc, s.p, e, name, q)
    requires ValueAt(doc, q, c, read)
    ensures Leads(doc, s, State(SkipSpaces(doc, c + 1), InsideTag, s.open, Some(WithAttribute(tag, name, read))))
  {
    NamePart(doc, s, tag, e, name, q);
    ValuePart(doc, State(q, AttrValue(e), s.open, Some(WithAttribute(tag, name, ""))), tag, name, c, read);
  }

  /** Whatever quotes it stands in, a value is read to the next of the same kind, and unescaped. */
  lemma AttributeIsRead(doc: string, s: State, tag: Open, e: nat, name: string, q: nat, quote: char, value: string)
    requires Fits(doc, s) && s.phase == InsideTag && s.tag == Some(tag)
    requires NamedAt(doc, s.p, e, name, q) && Quoted(doc, q, quote, value)
    ensures q + |value| + 2 <= |doc|
    ensures Leads(doc, s, State(SkipSpaces(doc, q + |value| + 2), InsideTag, s.open,
                                Some(WithAttribute(tag, name, Unescape(value, 0, |value|)))))
  {
    var read := ValueIs(doc, q, quote, value);
    WholeAttribute(doc, s, tag, e, name, q, q + |value| + 1, read);
  }

  /** Without quotes the value stays empty, and the scan goes on behind the character after the name. */
  lemma UnquotedValue(doc: string, s: State, tag: Open, e: nat, name: string, q: nat)
    requires Fits(doc, s) && s.phase == InsideTag && s.tag == Some(tag) && NamedAt(doc, s.p, e, name, q) && q < |doc|
    requires doc[q] !in {'"', '\'', '`'}
    ensures Leads(doc, s, State(SkipSpaces(doc, e + 1), InsideTag, s.open, Some(WithAttribute(tag, name, ""))))
  {
    NamePart(doc, s, tag, e, name, q);
    var t := State(q, AttrValue(e), s.open, Some(WithAttribute(tag, name, "")));
    var u := State(SkipSpaces(doc, e + 1), InsideTag, s.open, Some(WithAttribute(tag, name, "")));
    assert AttrValueTurn(doc, t) == Go(u);
    TurnOf(doc, t, u);
  }

  /** A bracket ends the tag: the element is open. */
  lemma TagEnds(doc: string, s: State, tag: Open)
    requires Fits(doc, s) && s.phase == InsideTag && s.tag == Some(tag) && At(doc, s.p) == '>'
    ensures Leads(doc, s, State(s.p + 1, InText, [tag] + s.open, None))
  {
    TurnOf(doc, s, State(s.p + 1, InText, [tag] + s.open, None));
  }

  /** A slash and a bracket: the element is empty. */
  lemma TagCloses(doc: string, s: State, tag: Open)
    requires Fits(doc, s) && s.phase == InsideTag && s.tag == Some(tag) && tag.children == []
    requires Stands(doc, s.p, "/>")
    ensures Leads(doc, s, State(s.p + 2, InText, Adopt(s.open, Element(tag.name, tag.attributes, [])), None))
  {
    StandsAt(doc, s.p, "/>", 0);
    StandsAt(doc, s.p, "/>", 1);
    TurnOf(doc, s, State(s.p + 2, InText, Adopt(s.open, Closed(tag)), None));
  }

  ghost predicate EndTag(doc: string, p: nat, w: string, name: string) {
    && Stands(doc, p, "</") && Stands(doc, p + 2, w) && IsBlank(w)
    && Stands(doc, p + 2 + |w|, name) && AllName(name) && !CanName(At(doc, p + 2 + |w| + |name|))
    && (name == "" ==> !IsSpace(At(doc, p + 2 + |w|)))
  }

  lemma EndTagName(doc: string, p: nat, w: string, name: string)
    requires EndTag(doc, p, w, name)
    ensures SkipSpaces(doc, p + 2) == p + 2 + |w| && NameEnd(doc, p + 2 + |w|) == p + 2 + |w| + |name|
    ensures doc[p + 2 + |w|..p + 2 + |w| + |name|] == name
  {
    if name != "" {
      StandsAt(doc, p + 2 + |w|, name, 0);
      assert CanName(name[0]);
    }
    BlanksEnd(doc, p + 2, w);
    NameStands(doc, p + 2 + |w|, name);
  }

  lemma EndTagBegins(doc: string, s: State)
    requires Outside(doc, s) && Stands(doc, s.p, "</")
    ensures Leads(doc, s, s.(p := s.p + 2, phase := CloseTag))
  {
    StandsAt(doc, s.p, "</", 0);
    StandsAt(doc, s.p, "</", 1);
    Bracket(doc, s);
    var o, t := s.(p := s.p + 1, phase := OpenTag), s.(p := s.p + 2, phase := CloseTag);
    assert OpenTurn(doc, o) == Go(t);
    TurnOf(doc, o, t);
  }

  /**
   A closing tag closes the innermost element if its name begins the element's; the rest up to the bracket is
   skipped.
   */
  lemma EndTagCloses(doc: string, s: State, w: string, name: string, e: nat)
    requires Outside(doc, s) && EndTag(doc, s.p, w, name) && |s.open| > 1
    requires |name| <= |s.open[0].name| && s.open[0].name[..|name|] == name
    requires s.p + 2 + |w| + |name| <= e < |doc| && doc[e] == '>'
    requires forall k | s.p + 2 + |w| + |name| <= k < e :: doc[k] != '>'
    ensures Leads(doc, s, s.(p := e + 1, phase := InText,
      open := Adopt(s.open[1..], Element(s.open[0].name, s.open[0].attributes, s.open[0].children))))
  {
    EndTagBegins(doc, s);
    EndTagName(doc, s.p, w, name);
    var t := s.(p := s.p + 2, phase := CloseTag);
    assert Find(doc, s.p + 2 + |w| + |name|, '>') == Some(e);
    var u := s.(p := e + 1, phase := InText, open := Adopt(s.open[1..], Closed(s.open[0])));
    assert doc[s.p + 2 + |w|..s.p + 2 + |w| + |name|] <= s.open[0].name;
    assert CloseTurn(doc, t) == Go(u);
    TurnOf(doc, t, u);
  }

  /** Any other closing tag is refused, and the whole document with it. */
  lemma EndTagIsRefused(doc: string, s: State, w: string, name: string)
    requires Outside(doc, s) && EndTag(doc, s.p, w, name) && s.p + 2 < |doc|
    requires |name| > |s.open[0].name| || s.open[0].name[..|name|] != name
    ensures ParseFrom(doc, s) == Rejected
  {
    EndTagBegins(doc, s);
    EndTagName(doc, s.p, w, name);
    var t := s.(p := s.p + 2, phase := CloseTag);
    assert CloseTurn(doc, t) == Stop(Rejected);
    LastTurn(doc, s, t, Rejected);
  }

  // ---------- texts and the end ----------

  lemma NoBracket(doc: string, p: nat, c: string)
    requires Stands(doc, p, c) && '<' !in c && (p + |c| == |doc| || doc[p + |c|] == '<')
    ensures Find(doc, p, '<') == if p + |c| < |doc| then Some(p + |c|) else None
  {
    forall k | p <= k < p + |c| ensures doc[k] != '<' {
      StandsAt(doc, p, c, k - p);
    }
  }

  lemma TextAlone(doc: string, p: nat, c: string)
    requires Stands(doc, p, c) && (p + |c| == |doc| || doc[p + |c|] == '<')
    ensures p + |c| <= |doc| && Unescape(doc, p, p + |c|) == Unescape(c, 0, |c|)
  {
    UnescapeLocal(doc, p, c);
  }

  /** Character data from `p` to `e` and what is read of it. */
  ghost predicate TextAt(doc: string, p: nat, e: nat, read: string) {
    p < e <= |doc| && Find(doc, p, '<') == (if e < |doc| then Some(e) else None) && Unescape(doc, p, e) == read
  }

  lemma CharacterData(doc: string, p: nat, c: string) returns (read: string)
    requires Stands(doc, p, c) && c != "" && '<' !in c && (p + |c| == |doc| || doc[p + |c|] == '<')
    ensures TextAt(doc, p, p + |c|, read) && read == Unescape(c, 0, |c|)
  {
    NoBracket(doc, p, c);
    TextAlone(doc, p, c);
    read := Unescape(doc, p, p + |c|);
  }

  lemma TextGoes(doc: string, s: State, e: nat, read: string)
    requires Fits(doc, s) && s.phase == InText && TextAt(doc, s.p, e, read)
    ensures Leads(doc, s, State(e, Init, Adopt(s.open, Text(read, false, false)), s.tag))
  {
    var t := State(e, Init, Adopt(s.open, Text(read, false, false)), s.tag);
    assert TextTurn(doc, s) == Go(t);
    TextTaken(doc, s, t);
  }

  lemma TextTaken(doc: string, s: State, t: State)
    requires Fits(doc, s) && s.p < |doc| && s.phase == InText && TextTurn(doc, s) == Go(t)
    ensures Leads(doc, s, t)
  {
    Turn(doc, s, t);
  }

  /** Character data up to the next bracket or the end is one text, unescaped. */
  lemma TextIsRead(doc: string, s: State, c: string) returns (read: string)
    requires Fits(doc, s) && s.phase == InText && Stands(doc, s.p, c) && c != "" && '<' !in c
    requires s.p + |c| == |doc| || doc[s.p + |c|] == '<'
    ensures read == Unescape(c, 0, |c|)
    ensures Leads(doc, s, State(s.p + |c|, Init, Adopt(s.open, Text(read, false, false)), s.tag))
  {
    read := CharacterData(doc, s.p, c);
    TextGoes(doc, s, s.p + |c|, read);
  }

  /** At the end the innermost open element is returned, with the one whose tag is unfinished as its last child. */
  lemma DocumentEnds(doc: string, s: State, t: State)
    requires Leads(doc, s, t) && t.p == |doc|
    ensures ParseFrom(doc, s) == Parsed(match t.tag
      case None => t.open[0]
      case Some(tag) =>
        Open(t.open[0].name, t.open[0].attributes,
             t.open[0].children + [Element(tag.name, tag.attributes, tag.children)]))
  {
    LeadsMeans(doc, s, t);
  }
}
