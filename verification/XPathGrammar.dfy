/** What lies in front of each loop of the compiler: the next operator of its level, or its end. */
module XPathGrammar {
  import opened Chars
  import opened XPathSyntax
  import opened XPathText

  /** The text of `e` at level k lies under the cursor, followed by `rest`. */
  ghost predicate Ready(s: string, p: nat, k: nat, e: Expr, rest: seq<Token>) {
    Wf(e) && Stops(k, rest) && HeadOk(rest) && Here(s, p, Tokens(k, e) + rest)
  }

  /** The same, with no white space in front. */
  ghost predicate Facing(s: string, p: nat, k: nat, e: Expr, rest: seq<Token>) {
    Wf(e) && Stops(k, rest) && HeadOk(rest) && Sees(s, p, Tokens(k, e) + rest)
  }

  // ---------- chains ----------

  /** The loop of level k has built `cur`; the tokens `ts` lead over the trees in `left` to `e`. */
  ghost predicate Coming(k: nat, cur: Expr, left: seq<Expr>, e: Expr, ts: seq<Token>, rest: seq<Token>) {
    && (k == 8 || 2 <= k <= 5) && Rises(k, cur, left, e)
    && ts == Tail(left) + rest && Stops(k, rest) && Stops(k + 1, ts) && HeadOk(ts) && HeadOk(rest)
  }

  lemma ChainStart(k: nat, s: string, p: nat, e: Expr, rest: seq<Token>)
      returns (cur: Expr, left: seq<Expr>, ts: seq<Token>)
    requires (k == 8 || 2 <= k <= 5) && Ready(s, p, k, e, rest)
    ensures Ready(s, p, k + 1, cur, ts) && Coming(k, cur, left, e, ts, rest)
    ensures cur < e || (cur == e && Level(e) != k)
  {
    var sp := Spine(k, e);
    cur, left := sp[0], sp[1..];
    ts := Tail(left) + rest;
    ChainTokens(k, e, rest);
    TailStops(k, cur, left, e, rest);
  }

  /** At the end of the chain there is no operator of the level. */
  lemma ChainEnd(k: nat, cur: Expr, e: Expr, ts: seq<Token>, rest: seq<Token>)
    requires Coming(k, cur, [], e, ts, rest)
    ensures cur == e && ts == rest && (|ts| > 0 ==> ts[0].Sym? && Rank(ts[0].o) < k)
  {
  }

  lemma BinNext(k: nat, s: string, p: nat, cur: Expr, left: seq<Expr>, e: Expr, ts: seq<Token>, rest: seq<Token>)
    returns (after: seq<Token>)
    requires 2 <= k <= 5 && |left| > 0 && Coming(k, cur, left, e, ts, rest) && Sees(s, p, ts)
    ensures left[0].Bin? && OpLevel(left[0].op) == k && left[0].l == cur && left[0].r < e
    ensures |ts| > 1 && ts[0] == Sym(OpS(left[0].op))
    ensures Ready(s, p + |SpellOp(left[0].op)|, k + 1, left[0].r, after)
    ensures Ready(s, p + |SpellOp(left[0].op)| + 1, k + 1, left[0].r, after)
    ensures Coming(k, left[0], left[1..], e, after, rest)
  {
    after := Tail(left[1..]) + rest;
    BinTokens(k, cur, left, e, rest);
    TailStops(k, left[0], left[1..], e, rest);
    ReadyBehind(k + 1, s, p, Sym(OpS(left[0].op)), left[0].r, after);
  }

  /** Behind a token and the blank after it stands the next expression. */
  lemma ReadyBehind(k: nat, s: string, p: nat, t: Token, r: Expr, after: seq<Token>)
    requires Sees(s, p, [t] + (Tokens(k, r) + after)) && Wf(r) && Stops(k, after) && HeadOk(after)
    ensures |Tokens(k, r) + after| > 0
    ensures Ready(s, p + |Spell(t)|, k, r, after) && Ready(s, p + |Spell(t)| + 1, k, r, after)
  {
    FirstToken(k, r);
    OnToken(s, p, t, Tokens(k, r) + after);
  }

  lemma StepNext(s: string, p: nat, cur: Expr, left: seq<Expr>, e: Expr, ts: seq<Token>, rest: seq<Token>)
    returns (after: seq<Token>)
    requires |left| > 0 && left[0].Down? && Coming(8, cur, left, e, ts, rest) && Sees(s, p, ts)
    ensures left[0].base == cur && WfStep(left[0].step) && At(s, p) == '/'
    ensures Ready(s, p + 1, 9, Child(left[0].step), after)
    ensures Coming(8, left[0], left[1..], e, after, rest)
  {
    after := Tail(left[1..]) + rest;
    StepTokens(cur, left, e, rest);
    OnToken(s, p, Sym(SlashS), [StepToken(left[0].step)] + after);
    assert At(s, p + 0) == '/';
    assert Tokens(9, Child(left[0].step)) == [StepToken(left[0].step)];
    TailStops(8, left[0], left[1..], e, rest);
  }

  lemma FilterNext(s: string, p: nat, cur: Expr, left: seq<Expr>, e: Expr, ts: seq<Token>, rest: seq<Token>)
    returns (after: seq<Token>)
    requires |left| > 0 && left[0].Filter? && Coming(8, cur, left, e, ts, rest) && Sees(s, p, ts)
    ensures left[0].base == cur && left[0].cond < e && At(s, p) == '['
    ensures Ready(s, p + 1, 0, left[0].cond, [Sym(RBr)] + after) && HeadOk(after)
    ensures Coming(8, left[0], left[1..], e, after, rest)
  {
    after := Tail(left[1..]) + rest;
    FilterTokens(cur, left, e, rest);
    OnToken(s, p, Sym(LBr), Tokens(0, left[0].cond) + ([Sym(RBr)] + after));
    assert At(s, p + 0) == '[';
    TailStops(8, left[0], left[1..], e, rest);
  }

  lemma Closing(s: string, p: nat, o: Sym, ts: seq<Token>)
    requires Sees(s, p, [Sym(o)] + ts) && |SpellSym(o)| == 1
    ensures At(s, p) == SpellSym(o)[0] && Here(s, p + 1, ts)
  {
    OnToken(s, p, Sym(o), ts);
    assert At(s, p + 0) == SpellSym(o)[0];
  }

  // ---------- flat lists ----------

  function Flat(k: nat, es: seq<Expr>): Expr {
    if k == 0 then Or(es) else if k == 1 then And(es) else Union(es)
  }

  lemma Shift<T>(done: seq<T>, left: seq<T>)
    requires left != []
    ensures done + left == done + [left[0]] + left[1..]
    ensures left[1..] == [] ==> done + left == done + [left[0]]
  {
  }

  lemma FlatShift(k: nat, nodes: seq<Expr>, left: seq<Expr>, e: Expr)
    requires left != [] && Flat(k, nodes + left) == e
    ensures Flat(k, nodes + [left[0]] + left[1..]) == e
    ensures left[1..] == [] ==> Flat(k, nodes + [left[0]]) == e
  {
    Shift(nodes, left);
  }

  /** The operands in `left`, each behind its separator, then `rest`. */
  ghost predicate Listing(k: nat, left: seq<Expr>, e: Expr, ts: seq<Token>, rest: seq<Token>) {
    && (k == 0 || k == 1 || k == 7) && (forall i :: 0 <= i < |left| ==> Wf(left[i]) && left[i] < e)
    && ts == Listed(k + 1, FlatSym(k), left) + rest && Stops(k, rest) && Stops(k + 1, ts) && HeadOk(ts) && HeadOk(rest)
  }

  lemma FlatStart(k: nat, s: string, p: nat, e: Expr, rest: seq<Token>)
      returns (first: Expr, left: seq<Expr>, ts: seq<Token>)
    requires (k == 0 || k == 1 || k == 7) && Ready(s, p, k, e, rest)
    ensures Ready(s, p, k + 1, first, ts) && Listing(k, left, e, ts, rest)
    ensures first < e || (first == e && Level(e) != k)
    ensures if |left| == 0 then first == e else Flat(k, [first] + left) == e
  {
    var es := Parts(k, e);
    FlatParts(k, e);
    first, left := es[0], es[1..];
    assert [first] + left == es;
    ts := Listed(k + 1, FlatSym(k), left) + rest;
    FlatTokens(k, e, rest);
    ListedStops(k + 1, FlatSym(k), left, rest);
    forall i | 0 <= i < |left| ensures Wf(left[i]) && left[i] < e {
      assert left[i] == es[i + 1];
    }
  }

  lemma FlatEnd(k: nat, e: Expr, ts: seq<Token>, rest: seq<Token>)
    requires Listing(k, [], e, ts, rest)
    ensures ts == rest && (|ts| > 0 ==> ts[0].Sym? && Rank(ts[0].o) < k)
  {
  }

  lemma FlatNext(k: nat, s: string, p: nat, left: seq<Expr>, e: Expr, ts: seq<Token>, rest: seq<Token>)
      returns (after: seq<Token>)
    requires |left| > 0 && Listing(k, left, e, ts, rest) && Sees(s, p, ts)
    ensures |ts| > 1 && ts[0] == Sym(FlatSym(k))
    ensures Ready(s, p + |SpellSym(FlatSym(k))|, k + 1, left[0], after)
    ensures Ready(s, p + |SpellSym(FlatSym(k))| + 1, k + 1, left[0], after)
    ensures Listing(k, left[1..], e, after, rest)
  {
    after := Listed(k + 1, FlatSym(k), left[1..]) + rest;
    ListTokens(k + 1, FlatSym(k), left, rest);
    FirstToken(k + 1, left[0]);
    OnToken(s, p, Sym(FlatSym(k)), Tokens(k + 1, left[0]) + after);
    ListedStops(k + 1, FlatSym(k), left[1..], rest);
  }

  // ---------- the tests ----------

  lemma Tests5(s: string, p: nat, ts: seq<Token>)
    requires Sees(s, p, ts) && (|ts| > 0 ==> ts[0].Sym? && Rank(ts[0].o) <= 5)
    requires |ts| > 0 && Rank(ts[0].o) == 5 ==> |ts| > 1
    ensures At(s, p) == '*' <==> |ts| > 0 && ts[0] == Sym(OpS(Times))
    ensures Fits(s, p, "div ") <==> |ts| > 0 && ts[0] == Sym(OpS(Div))
    ensures Fits(s, p, "mod ") <==> |ts| > 0 && ts[0] == Sym(OpS(Mod))
  {
    OnSym(s, p, ts);
    MatchesWord(s, p, ts, OpS(Div));
    MatchesWord(s, p, ts, OpS(Mod));
    assert SpellSym(OpS(Div)) + " " == "div ";
    assert SpellSym(OpS(Mod)) + " " == "mod ";
  }

  lemma Tests4(s: string, p: nat, ts: seq<Token>)
    requires Sees(s, p, ts) && (|ts| > 0 ==> ts[0].Sym? && Rank(ts[0].o) <= 4)
    ensures At(s, p) == '+' <==> |ts| > 0 && ts[0] == Sym(OpS(Plus))
    ensures At(s, p) == '-' <==> |ts| > 0 && ts[0] == Sym(OpS(Minus))
  {
    OnSym(s, p, ts);
  }

  lemma Tests3(s: string, p: nat, ts: seq<Token>)
    requires Sees(s, p, ts) && (|ts| > 0 ==> ts[0].Sym? && Rank(ts[0].o) <= 3)
    ensures Fits(s, p, "<=") <==> |ts| > 0 && ts[0] == Sym(OpS(Le))
    ensures Fits(s, p, ">=") <==> |ts| > 0 && ts[0] == Sym(OpS(Ge))
    ensures Fits(s, p, "<") <==> |ts| > 0 && (ts[0] == Sym(OpS(Lt)) || ts[0] == Sym(OpS(Le)))
    ensures Fits(s, p, ">") <==> |ts| > 0 && (ts[0] == Sym(OpS(Gt)) || ts[0] == Sym(OpS(Ge)))
  {
    OnSym(s, p, ts);
    FitsSymbols(s, p, "<=");
    FitsSymbols(s, p, ">=");
    FitsSymbols(s, p, "<");
    FitsSymbols(s, p, ">");
  }

  lemma Tests2(s: string, p: nat, ts: seq<Token>)
    requires Sees(s, p, ts) && (|ts| > 0 ==> ts[0].Sym? && Rank(ts[0].o) <= 2)
    ensures At(s, p) == '=' <==> |ts| > 0 && ts[0] == Sym(OpS(Eq))
    ensures At(s, p) == '!' && At(s, p + 1) == '=' <==> |ts| > 0 && ts[0] == Sym(OpS(Ne))
  {
    OnSym(s, p, ts);
  }

  lemma TestsWord(s: string, p: nat, ts: seq<Token>, k: nat)
    requires k <= 1 && Sees(s, p, ts) && (|ts| > 0 ==> ts[0].Sym?) && (|ts| > 0 && ts[0] == Sym(FlatSym(k)) ==>
      |ts| > 1)
    ensures Fits(s, p, if k == 0 then "or " else "and ") <==> |ts| > 0 && ts[0] == Sym(FlatSym(k))
  {
    MatchesWord(s, p, ts, FlatSym(k));
    assert SpellSym(OrS) + " " == "or ";
    assert SpellSym(AndS) + " " == "and ";
  }

  lemma TestsBar(s: string, p: nat, ts: seq<Token>)
    requires Sees(s, p, ts) && (|ts| > 0 ==> ts[0].Sym? && Rank(ts[0].o) <= 7)
    ensures At(s, p) == '|' <==> |ts| > 0 && ts[0] == Sym(BarS)
    ensures Fits(s, p, "|") <==> |ts| > 0 && ts[0] == Sym(BarS)
  {
    OnSym(s, p, ts);
    FitsSymbols(s, p, "|");
  }

  lemma TestsNode(s: string, p: nat, ts: seq<Token>)
    requires Sees(s, p, ts) && (|ts| > 0 ==> ts[0].Sym? && Rank(ts[0].o) < 8)
    ensures At(s, p) != '/' && At(s, p) != '['
  {
    OnSym(s, p, ts);
  }

  // ---------- one turn of each loop ----------

  lemma MulTurn(s: string, p: nat, cur: Expr, left: seq<Expr>, e: Expr, ts: seq<Token>, rest: seq<Token>)
      returns (after: seq<Token>)
    requires Coming(5, cur, left, e, ts, rest) && Sees(s, p, ts)
    ensures left == [] ==> cur == e && ts == rest
    ensures left != [] ==>
      left[0].Bin? && left[0].l == cur && left[0].r < e && Coming(5, left[0], left[1..], e, after, rest)
    ensures At(s, p) == '*' <==> left != [] && left[0].op == Times
    ensures Fits(s, p, "div ") <==> left != [] && left[0].op == Div
    ensures Fits(s, p, "mod ") <==> left != [] && left[0].op == Mod
    ensures left != [] && left[0].op == Times ==> Ready(s, p + 1, 6, left[0].r, after)
    ensures left != [] && left[0].op == Div ==> Ready(s, p + 4, 6, left[0].r, after)
    ensures left != [] && left[0].op == Mod ==> Ready(s, p + 4, 6, left[0].r, after)
    ensures left != [] ==> left[0].op == Times || left[0].op == Div || left[0].op == Mod
  {
    if left == [] {
      ChainEnd(5, cur, e, ts, rest);
      after := [];
    } else {
      after := BinNext(5, s, p, cur, left, e, ts, rest);
    }
    Tests5(s, p, ts);
  }

  lemma AddTurn(s: string, p: nat, cur: Expr, left: seq<Expr>, e: Expr, ts: seq<Token>, rest: seq<Token>)
      returns (after: seq<Token>)
    requires Coming(4, cur, left, e, ts, rest) && Sees(s, p, ts)
    ensures left == [] ==> cur == e && ts == rest
    ensures left != [] ==>
      left[0].Bin? && left[0].l == cur && left[0].r < e && Coming(4, left[0], left[1..], e, after, rest)
    ensures At(s, p) == '+' <==> left != [] && left[0].op == Plus
    ensures At(s, p) == '-' <==> left != [] && left[0].op == Minus
    ensures left != [] && left[0].op == Plus ==> Ready(s, p + 1, 5, left[0].r, after)
    ensures left != [] && left[0].op == Minus ==> Ready(s, p + 1, 5, left[0].r, after)
    ensures left != [] ==> left[0].op == Plus || left[0].op == Minus
  {
    if left == [] {
      ChainEnd(4, cur, e, ts, rest);
      after := [];
    } else {
      after := BinNext(4, s, p, cur, left, e, ts, rest);
    }
    Tests4(s, p, ts);
  }

  lemma RelTurn(s: string, p: nat, cur: Expr, left: seq<Expr>, e: Expr, ts: seq<Token>, rest: seq<Token>)
      returns (after: seq<Token>)
    requires Coming(3, cur, left, e, ts, rest) && Sees(s, p, ts)
    ensures left == [] ==> cur == e && ts == rest
    ensures left != [] ==>
      left[0].Bin? && left[0].l == cur && left[0].r < e && Coming(3, left[0], left[1..], e, after, rest)
    ensures Fits(s, p, "<=") <==> left != [] && left[0].op == Le
    ensures Fits(s, p, ">=") <==> left != [] && left[0].op == Ge
    ensures Fits(s, p, "<") && !Fits(s, p, "<=") <==> left != [] && left[0].op == Lt
    ensures Fits(s, p, ">") && !Fits(s, p, ">=") <==> left != [] && left[0].op == Gt
    ensures left != [] && left[0].op == Le ==> Ready(s, p + 2, 4, left[0].r, after)
    ensures left != [] && left[0].op == Ge ==> Ready(s, p + 2, 4, left[0].r, after)
    ensures left != [] && left[0].op == Lt ==> Ready(s, p + 1, 4, left[0].r, after)
    ensures left != [] && left[0].op == Gt ==> Ready(s, p + 1, 4, left[0].r, after)
    ensures left != [] ==> left[0].op == Le || left[0].op == Ge || left[0].op == Lt || left[0].op == Gt
  {
    Tests3(s, p, ts);
    if left == [] {
      ChainEnd(3, cur, e, ts, rest);
      after := [];
    } else {
      after := BinNext(3, s, p, cur, left, e, ts, rest);
    }
  }

  lemma EqTurn(s: string, p: nat, cur: Expr, left: seq<Expr>, e: Expr, ts: seq<Token>, rest: seq<Token>)
      returns (after: seq<Token>)
    requires Coming(2, cur, left, e, ts, rest) && Sees(s, p, ts)
    ensures left == [] ==> cur == e && ts == rest
    ensures left != [] ==>
      left[0].Bin? && left[0].l == cur && left[0].r < e && Coming(2, left[0], left[1..], e, after, rest)
    ensures At(s, p) == '=' <==> left != [] && left[0].op == Eq
    ensures At(s, p) == '!' && At(s, p + 1) == '=' <==> left != [] && left[0].op == Ne
    ensures left != [] && left[0].op == Eq ==> Ready(s, p + 1, 3, left[0].r, after)
    ensures left != [] && left[0].op == Ne ==> Ready(s, p + 2, 3, left[0].r, after)
    ensures left != [] ==> left[0].op == Eq || left[0].op == Ne
  {
    if left == [] {
      ChainEnd(2, cur, e, ts, rest);
      after := [];
    } else {
      after := BinNext(2, s, p, cur, left, e, ts, rest);
    }
    Tests2(s, p, ts);
  }

  lemma NodeTurn(s: string, p: nat, cur: Expr, left: seq<Expr>, e: Expr, ts: seq<Token>, rest: seq<Token>)
      returns (after: seq<Token>)
    requires Coming(8, cur, left, e, ts, rest) && Sees(s, p, ts)
    ensures left == [] ==> cur == e && ts == rest
    ensures left != [] ==>
      (left[0].Down? || left[0].Filter?) && left[0].base == cur && Coming(8, left[0], left[1..], e, after, rest)
    ensures At(s, p) == '/' <==> left != [] && left[0].Down?
    ensures At(s, p) == '[' <==> left != [] && left[0].Filter?
    ensures left != [] && left[0].Down? ==> Ready(s, p + 1, 9, Child(left[0].step), after)
    ensures left != [] && left[0].Filter? ==> left[0].cond < e && Ready(s, p + 1, 0, left[0].cond, [Sym(RBr)] + after)
  {
    if left == [] {
      ChainEnd(8, cur, e, ts, rest);
      TestsNode(s, p, ts);
      after := [];
    } else if left[0].Down? {
      after := StepNext(s, p, cur, left, e, ts, rest);
    } else {
      after := FilterNext(s, p, cur, left, e, ts, rest);
    }
  }

  lemma UnionTurn(s: string, p: nat, left: seq<Expr>, e: Expr, ts: seq<Token>, rest: seq<Token>)
      returns (after: seq<Token>)
    requires Listing(7, left, e, ts, rest) && Sees(s, p, ts)
    ensures left == [] ==> ts == rest
    ensures At(s, p) == '|' <==> left != []
    ensures Fits(s, p, "|") <==> left != []
    ensures left != [] ==> left[0] < e && Ready(s, p + 1, 8, left[0], after) && Listing(7, left[1..], e, after, rest)
  {
    if left == [] {
      FlatEnd(7, e, ts, rest);
      after := [];
    } else {
      after := FlatNext(7, s, p, left, e, ts, rest);
    }
    TestsBar(s, p, ts);
  }

  lemma AndTurn(s: string, p: nat, left: seq<Expr>, e: Expr, ts: seq<Token>, rest: seq<Token>)
      returns (after: seq<Token>)
    requires Listing(1, left, e, ts, rest) && Sees(s, p, ts)
    ensures left == [] ==> ts == rest
    ensures Fits(s, p, "and ") <==> left != []
    ensures left != [] ==> left[0] < e && Ready(s, p + 4, 2, left[0], after) && Listing(1, left[1..], e, after, rest)
  {
    if left == [] {
      FlatEnd(1, e, ts, rest);
      after := [];
    } else {
      after := FlatNext(1, s, p, left, e, ts, rest);
    }
    TestsWord(s, p, ts, 1);
  }

  lemma OrTurn(s: string, p: nat, left: seq<Expr>, e: Expr, ts: seq<Token>, rest: seq<Token>)
      returns (after: seq<Token>)
    requires Listing(0, left, e, ts, rest) && Sees(s, p, ts)
    ensures left == [] ==> ts == rest
    ensures Fits(s, p, "or ") <==> left != []
    ensures left != [] ==> left[0] < e && Ready(s, p + 3, 1, left[0], after) && Listing(0, left[1..], e, after, rest)
  {
    if left == [] {
      FlatEnd(0, e, ts, rest);
      after := [];
    } else {
      after := FlatNext(0, s, p, left, e, ts, rest);
    }
    TestsWord(s, p, ts, 0);
  }

  // ---------- negation ----------

  /** `not` negates only in front of white space or a parenthesis. */
  lemma NotNext(s: string, p: nat, e: Expr, rest: seq<Token>)
    requires Facing(s, p, 6, e, rest) && e.Not?
    ensures Fits(s, p, "not") && At(s, p + 3) == ' ' && Ready(s, p + 3, 6, e.e, rest)
  {
    FirstToken(6, e.e);
    assert Tokens(6, e) == [Sym(NotS)] + Tokens(6, e.e);
    Assoc([Sym(NotS)], Tokens(6, e.e), rest);
    IsNot(s, p, Tokens(6, e.e) + rest);
  }

  lemma NoNot(s: string, p: nat, e: Expr, rest: seq<Token>)
    requires Facing(s, p, 6, e, rest) && !e.Not?
    ensures Fits(s, p, "not") ==> At(s, p + 3) != '(' && !IsSpace(At(s, p + 3))
    ensures Ready(s, p, 7, e, rest)
  {
    var ts := Tokens(6, e) + rest;
    assert Level(e) != 6;
    assert Tokens(7, e) == Tokens(6, e);
    FirstToken(7, e);
    assert ts == [ts[0]] + ts[1..];
    NotNot(s, p, ts[0], ts[1..]);
  }

  // ---------- operands ----------

  lemma ParenNext(s: string, p: nat, e: Expr, rest: seq<Token>)
    requires Level(e) < 9 && Facing(s, p, 9, e, rest)
    ensures At(s, p) == '(' && Ready(s, p + 1, 0, e, [Sym(RPar)] + rest)
  {
    var ts := Tokens(0, e) + ([Sym(RPar)] + rest);
    assert Tokens(9, e) + rest == [Sym(LPar)] + ts;
    OnToken(s, p, Sym(LPar), ts);
    assert At(s, p + 0) == '(';
  }

  lemma NumberNext(s: string, p: nat, n: int, rest: seq<Token>)
    requires Facing(s, p, 9, Int(n), rest)
    ensures Sees(s, p, [Word(Show(n))] + rest) && CanNumber(s, p) && At(s, p) != '\'' && At(s, p) != '('
  {
    assert Tokens(9, Int(n)) == [Word(Show(n))];
    OnToken(s, p, Word(Show(n)), rest);
    Digits(n);
    assert At(s, p + 0) == Show(n)[0];
    if |Show(n)| > 1 {
      assert At(s, p + 1) == Show(n)[1];
    }
  }

  lemma TextNext(s: string, p: nat, w: string, rest: seq<Token>)
    requires Facing(s, p, 9, Text(w), rest)
    ensures At(s, p) == '\'' && p + 2 + |w| <= |s| && s[p + 1..p + 1 + |w|] == w && At(s, p + 1 + |w|) == '\''
    ensures Here(s, p + 2 + |w|, rest)
    ensures forall q :: p + 1 <= q < p + 1 + |w| ==> At(s, q) != '\'' && At(s, q) != '\0'
  {
    assert Tokens(9, Text(w)) == [Word("'" + w + "'")];
    QuotedText(s, p, w, rest);
  }

  lemma QuotedText(s: string, p: nat, w: string, rest: seq<Token>)
    requires Sees(s, p, [Word("'" + w + "'")] + rest) && IsLiteral(w)
    ensures At(s, p) == '\'' && p + 2 + |w| <= |s| && s[p + 1..p + 1 + |w|] == w && At(s, p + 1 + |w|) == '\''
    ensures Here(s, p + 2 + |w|, rest)
    ensures forall q :: p + 1 <= q < p + 1 + |w| ==> At(s, q) != '\'' && At(s, q) != '\0'
  {
    var t := "'" + w + "'";
    OnToken(s, p, Word(t), rest);
    assert At(s, p + 0) == t[0];
    assert At(s, p + (1 + |w|)) == t[1 + |w|];
    assert s[p + 1..p + 1 + |w|] == s[p..p + |t|][1..1 + |w|] == t[1..1 + |w|] == w;
    forall q | p + 1 <= q < p + 1 + |w| ensures At(s, q) == w[q - p - 1] {
      assert At(s, p + (q - p)) == t[q - p];
    }
  }

  lemma VarNext(s: string, p: nat, n: string, rest: seq<Token>)
    requires Facing(s, p, 9, Var(n), rest)
    ensures Sees(s, p, [Word("$" + n)] + rest) && At(s, p) == '$' && !CanNumber(s, p)
  {
    assert Tokens(9, Var(n)) == [Word("$" + n)];
    OnToken(s, p, Word("$" + n), rest);
    assert At(s, p + 0) == ("$" + n)[0];
  }

  lemma RootNext(s: string, p: nat, n: string, rest: seq<Token>)
    requires Facing(s, p, 9, Rooted(n), rest)
    ensures At(s, p) == '/' && !CanNumber(s, p) && Ready(s, p + 1, 9, Child(Named(n)), rest)
  {
    var ts := Tokens(9, Child(Named(n))) + rest;
    assert Tokens(9, Child(Named(n))) == [Word(n)];
    assert Tokens(9, Rooted(n)) == [Sym(SlashS)] + [Word(n)];
    Assoc([Sym(SlashS)], [Word(n)], rest);
    OnToken(s, p, Sym(SlashS), ts);
    assert At(s, p + 0) == '/';
  }

  /** What stands behind the name of a step or a call. */
  function AfterName(e: Expr, rest: seq<Token>): seq<Token> {
    if e.Call? then [Sym(LPar)] + (List(0, CommaS, e.args) + ([Sym(RPar)] + rest)) else rest
  }

  predicate IsSelect(e: Expr) {
    e.Child? || e.Call?
  }

  /** The first characters of a step or a call decide how it is read. */
  lemma SelectNext(s: string, p: nat, e: Expr, rest: seq<Token>)
    requires IsSelect(e) && Facing(s, p, 9, e, rest)
    ensures e == Child(Any) ==> At(s, p) == '*' && Here(s, p + 1, rest)
    ensures e == Child(Self) ==>
      At(s, p) == '.' && At(s, p + 1) != '.' && !IsDigit(At(s, p + 1)) && Here(s, p + 1, rest)
    ensures e == Child(Up) ==> At(s, p) == '.' && At(s, p + 1) == '.' && Here(s, p + 2, rest)
    ensures e == Child(AllAttrs) ==> At(s, p) == '@' && At(s, p + 1) == '*' && Here(s, p + 2, rest)
    ensures e.Child? && e.step.AttrOf? ==>
      At(s, p) == '@' && IsLetter(At(s, p + 1)) && Sees(s, p, [Word("@" + e.step.name)] + rest)
    ensures e.Child? && e.step.Named? ==> IsLetter(At(s, p)) && Sees(s, p, [Word(e.step.name)] + rest)
    ensures e.Call? ==> IsLetter(At(s, p)) && Sees(s, p, [Word(e.name)] + AfterName(e, rest))
  {
    if e.Call? {
      CallTokens(e, rest);
      OnToken(s, p, Word(e.name), AfterName(e, rest));
      assert At(s, p + 0) == e.name[0];
    } else {
      assert Tokens(9, e) == [StepToken(e.step)];
      StepStart(s, p, e.step, rest);
    }
  }

  lemma StepStart(s: string, p: nat, step: Step, rest: seq<Token>)
    requires WfStep(step) && Sees(s, p, [StepToken(step)] + rest)
    ensures var w := Spell(StepToken(step));
      At(s, p) == w[0] && (|w| > 1 ==> At(s, p + 1) == w[1]) && Here(s, p + |w|, rest)
    ensures |Spell(StepToken(step))| == 1 ==> At(s, p + 1) == '\0' || At(s, p + 1) == ' '
  {
    OnToken(s, p, StepToken(step), rest);
    assert At(s, p + 0) == Spell(StepToken(step))[0];
  }

  lemma CallTokens(e: Expr, rest: seq<Token>)
    requires e.Call?
    ensures Tokens(9, e) + rest == [Word(e.name)] + AfterName(e, rest)
  {
    var args := List(0, CommaS, e.args);
    assert Tokens(9, e) == [Word(e.name), Sym(LPar)] + args + [Sym(RPar)];
    Around(Word(e.name), Sym(LPar), args, Sym(RPar), rest);
  }

  lemma Around(a: Token, b: Token, ts: seq<Token>, c: Token, rest: seq<Token>)
    ensures [a, b] + ts + [c] + rest == [a] + ([b] + (ts + ([c] + rest)))
  {
  }

  lemma CallNext(s: string, p: nat, e: Expr, rest: seq<Token>)
    requires Sees(s, p, AfterName(e, rest)) && Stops(9, rest)
    ensures At(s, p) == '(' <==> e.Call?
    ensures e.Call? ==> Here(s, p + 1, List(0, CommaS, e.args) + ([Sym(RPar)] + rest))
  {
    OnSym(s, p, AfterName(e, rest));
  }

  // ---------- arguments ----------

  /** At the end of the arguments stands the parenthesis, and nowhere before. */
  lemma ArgumentsDone(s: string, p: nat, end: seq<Token>, rest: seq<Token>)
    requires end == [Sym(RPar)] + rest && Sees(s, p, List(0, CommaS, []) + end)
    ensures At(s, p) == ')' && Here(s, p + 1, rest)
  {
    NoList(0, CommaS, end);
    Closing(s, p, RPar, rest);
  }

  lemma ArgumentNext(s: string, p: nat, left: seq<Expr>, end: seq<Token>) returns (after: seq<Token>)
    requires |left| > 0 && Wf(left[0]) && Stops(0, end) && Sees(s, p, List(0, CommaS, left) + end)
    ensures after == Listed(0, CommaS, left[1..]) + end && Ready(s, p, 0, left[0], after)
    ensures At(s, p) != ')'
  {
    after := Listed(0, CommaS, left[1..]) + end;
    ListTokens(0, CommaS, left, end);
    ListedStops(0, CommaS, left[1..], end);
    OperandHead(s, p, left[0], after);
  }

  lemma OperandHead(s: string, p: nat, e: Expr, rest: seq<Token>)
    requires Wf(e) && Sees(s, p, Tokens(0, e) + rest)
    ensures At(s, p) != ')'
  {
    FirstToken(0, e);
    var ts := Tokens(0, e) + rest;
    var t := Tokens(0, e)[0];
    assert ts == [t] + ts[1..];
    OnToken(s, p, t, ts[1..]);
    assert At(s, p + 0) == Spell(t)[0];
  }

  lemma CommaNext(s: string, p: nat, left: seq<Expr>, end: seq<Token>)
    requires |left| > 0 && Sees(s, p, Listed(0, CommaS, left) + end)
    ensures At(s, p) == ',' && Here(s, p + 1, List(0, CommaS, left) + end)
  {
    ListTokens(0, CommaS, left, end);
    CommaStep(s, p, Listed(0, CommaS, left) + end, List(0, CommaS, left) + end);
  }

  lemma CommaStep(s: string, p: nat, ts: seq<Token>, behind: seq<Token>)
    requires Sees(s, p, ts) && ts == [Sym(CommaS)] + behind
    ensures At(s, p) == ',' && Here(s, p + 1, behind)
  {
    Closing(s, p, CommaS, behind);
  }

  lemma NoComma(s: string, p: nat, end: seq<Token>, rest: seq<Token>)
    requires end == [Sym(RPar)] + rest && Sees(s, p, Listed(0, CommaS, []) + end)
    ensures At(s, p) == ')' && Here(s, p, List(0, CommaS, []) + end)
  {
    NoList(0, CommaS, end);
    Closing(s, p, RPar, rest);
  }

  lemma NoList(k: nat, o: Sym, ts: seq<Token>)
    ensures List(k, o, []) + ts == ts && Listed(k, o, []) + ts == ts
  {
  }
}
