/**
 The XPath compiler: recursive descent over a moving cursor, one method for each level of the
 grammar. Every method takes, as a ghost, the expression whose text lies under the cursor, and
 is proved to return it.
 */
module XPathCompiler {
  import opened Chars
  import opened XPathSyntax
  import opened XPathText
  import opened XPathGrammar

  lemma NamePart(s: string, p: nat, w: string, n: string)
    requires p + |w| <= |s| && s[p..p + |w|] == w && IsName(n) && (w == n || (|w| == |n| + 1 && w[1..] == n))
    ensures var from := p + |w| - |n|; s[from..from + |n|] == n && forall q :: from <= q < from + |n| ==>
      At(s, q) != '\0' && IsNameChar(At(s, q))
  {
    var from := p + |w| - |n|;
    assert s[from..from + |n|] == s[p..p + |w|][from - p..];
    forall q | from <= q < from + |n| ensures At(s, q) == n[q - from] {
      assert s[from..from + |n|][q - from] == s[q];
    }
  }

  /** A measure for the recursion: levels below the printed one, then the parentheses, then above. */
  function Need(k: nat, e: Expr): nat
    requires k <= 9
  {
    if Level(e) < k then 40 - k else 20 - k
  }

  class Cursor {
    const value: string
    var p: nat

    constructor (expr: string)
      ensures value == expr && p == 0
    {
      value := expr;
      p := 0;
    }

    method SkipWs(ghost ts: seq<Token>)
      requires Here(value, p, ts) && HeadOk(ts)
      modifies this
      ensures Sees(value, p, ts)
    {
      while true
        invariant Here(value, p, ts)
        decreases |value| - p
      {
        SkipsWs(value, p, ts);
        if At(value, p) == '\0' {
          return;
        }
        if !IsSpace(At(value, p)) {
          return;
        }
        p := p + 1;
      }
    }

    method Match(pat: string) returns (ok: bool)
      requires forall i :: 0 <= i < |pat| ==> pat[i] != '\0'
      modifies this
      ensures ok <==> Fits(value, old(p), pat)
      ensures p == if ok then old(p) + |pat| else old(p)
    {
      var pos := p;
      var i := 0;
      while i < |pat|
        invariant i <= |pat| && p == pos + i
        invariant forall j :: 0 <= j < i ==> CharFits(pat[j], At(value, pos + j))
      {
        if At(value, p) != pat[i] {
          if !(pat[i] == ' ' && (IsSpace(At(value, p)) || At(value, p) == '(')) {
            p := pos;
            assert !CharFits(pat[i], At(value, pos + i));
            return false;
          }
        }
        i := i + 1;
        p := p + 1;
      }
      return true;
    }

    /** White space in front of an expression. */
    method SkipTo(ghost k: nat, ghost e: Expr, ghost rest: seq<Token>)
      requires Ready(value, p, k, e, rest)
      modifies this
      ensures Facing(value, p, k, e, rest)
    {
      HeadsOk(k, e, rest);
      SkipWs(Tokens(k, e) + rest);
    }

    /** The end of the name that starts at `from`. */
    method NameEnd(from: nat, ghost end: nat) returns (e: nat)
      requires from < end <= |value| && !IsNameChar(At(value, end))
      requires forall q :: from <= q < end ==> At(value, q) != '\0' && IsNameChar(At(value, q))
      ensures e == end
    {
      e := from + 1;
      while At(value, e) != '\0' && IsNameChar(At(value, e))
        invariant from < e <= end
        decreases end - e
      {
        e := e + 1;
      }
    }

    /** A name, at the cursor or behind one more character. */
    method Name(from: nat, ghost w: string, ghost n: string, ghost ts: seq<Token>) returns (r: string)
      requires Sees(value, p, [Word(w)] + ts) && IsName(n) && (w == n || (|w| == |n| + 1 && w[1..] == n))
        && from == p + |w| - |n|
      modifies this
      ensures r == n && Here(value, p, ts)
    {
      OnToken(value, p, Word(w), ts);
      NamePart(value, p, w, n);
      var e := NameEnd(from, from + |n|);
      r := value[from..e];
      p := e;
    }

    /** The axes are tried in this order; a name matches none. */
    method Axis(ghost n: string, ghost ts: seq<Token>) returns (found: bool)
      requires Sees(value, p, [Word(n)] + ts) && IsName(n)
      modifies this
      ensures !found && p == old(p)
    {
      found := TryAxis("child::", n, ts);
      if !found { found := TryAxis("descendant::", n, ts); }
      if !found { found := TryAxis("attribute::", n, ts); }
      if !found { found := TryAxis("self::", n, ts); }
      if !found { found := TryAxis("descendant-or-self::", n, ts); }
      if !found { found := TryAxis("following-sibling::", n, ts); }
      if !found { found := LaterAxis(n, ts); }
    }

    method LaterAxis(ghost n: string, ghost ts: seq<Token>) returns (found: bool)
      requires Sees(value, p, [Word(n)] + ts) && IsName(n)
      modifies this
      ensures !found && p == old(p)
    {
      found := TryAxis("following::", n, ts);
      if !found { found := TryAxis("parent::", n, ts); }
      if !found { found := TryAxis("ancestor::", n, ts); }
      if !found { found := TryAxis("preceding-sibling::", n, ts); }
      if !found { found := TryAxis("preceding::", n, ts); }
      if !found { found := TryAxis("ancestor-or-self::", n, ts); }
    }

    method TryAxis(axis: string, ghost n: string, ghost ts: seq<Token>) returns (found: bool)
      requires Sees(value, p, [Word(n)] + ts) && IsName(n)
      requires |axis| >= 2 && axis[|axis| - 2] == ':' && axis[|axis| - 1] == ':'
      requires forall i :: 0 <= i < |axis| ==> axis[i] != ' ' && axis[i] != '\0'
      modifies this
      ensures !found && p == old(p)
    {
      NoAxis(value, p, n, ts, axis);
      found := Match(axis);
    }

    /** `do_select_expr`, where a step or a call is wanted. */
    method DoSelect(ghost e: Expr, ghost rest: seq<Token>, ghost whole: Expr) returns (r: Expr)
      requires Ready(value, p, 9, e, rest) && (e.Child? || (e.Call? && e == whole))
      modifies this
      ensures r == e && Here(value, p, rest)
      decreases whole, 4
    {
      SkipTo(9, e, rest);
      SelectNext(value, p, e, rest);
      if At(value, p) == '*' {
        p := p + 1;
        return Child(Any);
      } else if At(value, p) == '.' {
        r := Dots(e, rest);
      } else {
        r := SelectName(e, rest, whole);
      }
    }

    /** One dot or two. */
    method Dots(ghost e: Expr, ghost rest: seq<Token>) returns (r: Expr)
      requires Facing(value, p, 9, e, rest) && (e == Child(Self) || e == Child(Up))
      modifies this
      ensures r == e && Here(value, p, rest)
    {
      SelectNext(value, p, e, rest);
      p := p + 1;
      if At(value, p) == '.' {
        p := p + 1;
        return Child(Up);
      } else {
        return Child(Self);
      }
    }

    /** The part of `do_select_expr` that reads a name. */
    method SelectName(ghost e: Expr, ghost rest: seq<Token>, ghost whole: Expr) returns (r: Expr)
      requires Facing(value, p, 9, e, rest) && (e.Child? || (e.Call? && e == whole))
      requires e.Child? ==> e.step.Named? || e.step.AttrOf? || e.step.AllAttrs?
      modifies this
      ensures r == e && Here(value, p, rest)
      decreases whole, 3
    {
      SelectNext(value, p, e, rest);
      var from := p;
      ghost var ts := AfterName(e, rest);
      if At(value, from) == '@' {
        from := from + 1;
        if At(value, from) == '*' {
          p := from + 1;
          return Child(AllAttrs);
        }
        r := NameAndCall(from, true, "@" + e.step.name, e.step.name, ts, e, rest, whole);
      } else {
        ghost var n := if e.Call? then e.name else e.step.name;
        var axis := Axis(n, ts);
        r := NameAndCall(from, false, n, n, ts, e, rest, whole);
      }
    }

    method NameAndCall(from: nat, attr: bool, ghost w: string, ghost n: string, ghost ts: seq<Token>,
        ghost e: Expr, ghost rest: seq<Token>, ghost whole: Expr) returns (r: Expr)
      requires Sees(value, p, [Word(w)] + ts) && IsName(n) && (w == n || (|w| == |n| + 1 && w[1..] == n))
        && from == p + |w| - |n|
      requires ts == AfterName(e, rest) && Wf(e) && Stops(9, rest) && HeadOk(rest)
      requires if e.Call? then e == whole && n == e.name && !attr else e == Child(if attr then AttrOf(n) else Named(n))
      modifies this
      ensures r == e && Here(value, p, rest)
      decreases whole, 2
    {
      var name := Name(from, w, n, ts);
      SkipWs(ts);
      CallNext(value, p, e, rest);
      if At(value, p) == '(' {
        p := p + 1;
        var args := Arguments(e.args, rest, whole);
        return Call(name, args);
      }
      return Child(if attr then AttrOf(name) else Named(name));
    }

    method Arguments(ghost es: seq<Expr>, ghost rest: seq<Token>, ghost whole: Expr) returns (args: seq<Expr>)
      requires (forall i :: 0 <= i < |es| ==> Wf(es[i]) && es[i] < whole) && HeadOk(rest)
      requires Here(value, p, List(0, CommaS, es) + ([Sym(RPar)] + rest))
      modifies this
      ensures args == es && Here(value, p, rest)
      decreases whole, 1
    {
      args := [];
      ghost var left := es;
      ghost var end := [Sym(RPar)] + rest;
      while true
        invariant args + left == es && forall i :: 0 <= i < |left| ==> Wf(left[i]) && left[i] < whole
        invariant Here(value, p, List(0, CommaS, left) + end)
        decreases |left|
      {
        ListHead(0, CommaS, left, end);
        SkipWs(List(0, CommaS, left) + end);
        ghost var after := Upcoming(left, end, rest);
        if At(value, p) == ')' {
          p := p + 1;
          break;
        }
        var arg := Argument(left, after, end, rest, whole);
        Shift(args, left);
        args := args + [arg];
        left := left[1..];
      }
    }

    /** What stands where an argument may begin. */
    ghost method Upcoming(left: seq<Expr>, end: seq<Token>, rest: seq<Token>) returns (after: seq<Token>)
      requires Sees(value, p, List(0, CommaS, left) + end) && end == [Sym(RPar)] + rest
      requires |left| > 0 ==> Wf(left[0])
      ensures left == [] ==> At(value, p) == ')' && Here(value, p + 1, rest)
      ensures |left| > 0 ==>
        At(value, p) != ')' && after == Listed(0, CommaS, left[1..]) + end && Ready(value, p, 0, left[0], after)
    {
      after := [];
      if left == [] {
        ArgumentsDone(value, p, end, rest);
      } else {
        after := ArgumentNext(value, p, left, end);
      }
    }

    /** One argument and the comma behind it. */
    method Argument(ghost left: seq<Expr>, ghost after: seq<Token>, ghost end: seq<Token>, ghost rest: seq<Token>,
        ghost whole: Expr)
      returns (arg: Expr)
      requires |left| > 0 && left[0] < whole && (|left| > 1 ==> Wf(left[1])) && end == [Sym(RPar)] + rest
      requires after == Listed(0, CommaS, left[1..]) + end && Ready(value, p, 0, left[0], after)
      modifies this
      ensures arg == left[0] && Here(value, p, List(0, CommaS, left[1..]) + end)
      decreases whole, 0
    {
      arg := DoOr(left[0], after);
      SkipWs(after);
      if |left| == 1 {
        NoComma(value, p, end, rest);
      } else {
        CommaNext(value, p, left[1..], end);
      }
      if At(value, p) == ',' {
        p := p + 1;
      }
    }

    /** The string literal of `do_node2_expr`. */
    method Literal(ghost w: string, ghost rest: seq<Token>) returns (r: Expr)
      requires Facing(value, p, 9, Text(w), rest)
      modifies this
      ensures r == Text(w) && Here(value, p, rest)
    {
      TextNext(value, p, w, rest);
      p := p + 1;
      var to := Quoted(p, w);
      r := Text(value[p..to]);
      if At(value, to) != '\0' {
        to := to + 1;
      }
      p := to;
      SkipWs(rest);
    }

    /** The closing quote. */
    method Quoted(from: nat, ghost w: string) returns (to: nat)
      requires At(value, from + |w|) == '\''
      requires forall q :: from <= q < from + |w| ==> At(value, q) != '\'' && At(value, q) != '\0'
      ensures to == from + |w|
    {
      to := from;
      while At(value, to) != '\0' && At(value, to) != '\''
        invariant from <= to <= from + |w|
        decreases from + |w| - to
      {
        to := to + 1;
      }
    }

    /** The number of `do_node2_expr`, where no fraction follows. */
    method Number(ghost n: int, ghost rest: seq<Token>) returns (r: Expr)
      requires Sees(value, p, [Word(Show(n))] + rest) && HeadOk(rest)
      modifies this
      ensures r == Int(n) && Here(value, p, rest)
    {
      OnToken(value, p, Word(Show(n)), rest);
      Digits(n);
      ghost var end := p + |Show(n)|;
      forall q | p < q < end ensures IsDigit(At(value, q)) {
        assert At(value, p + (q - p)) == Show(n)[q - p];
      }
      var from, to := p, p + 1;
      while IsDigit(At(value, to))
        invariant from < to <= end
        decreases end - to
      {
        to := to + 1;
      }
      AtolShow(n);
      r := Int(Atol(value[from..to]));
      p := to;
      SkipWs(rest);
    }

    /** An expression up to the closing parenthesis or bracket. */
    method Bracketed(o: Sym, ghost e: Expr, ghost rest: seq<Token>) returns (r: Expr)
      requires (o == RPar || o == RBr) && HeadOk(rest) && Ready(value, p, 0, e, [Sym(o)] + rest)
      modifies this
      ensures r == e && Here(value, p, rest)
      decreases e, Need(0, e) + 1
    {
      r := DoOr(e, [Sym(o)] + rest);
      SkipWs([Sym(o)] + rest);
      Closing(value, p, o, rest);
      if At(value, p) == SpellSym(o)[0] {
        p := p + 1;
        SkipWs(rest);
      }
    }

    /** `do_node2_expr` */
    method DoNode2(ghost e: Expr, ghost rest: seq<Token>) returns (r: Expr)
      requires Ready(value, p, 9, e, rest)
      modifies this
      ensures r == e && Here(value, p, rest)
      decreases e, Need(9, e)
    {
      SkipTo(9, e, rest);
      Primary(value, p, e, rest);
      if At(value, p) == '\'' {
        r := Literal(e.s, rest);
      } else if At(value, p) == '(' {
        p := p + 1;
        r := Bracketed(RPar, e, rest);
      } else if CanNumber(value, p) {
        r := Number(e.n, rest);
      } else if At(value, p) == '$' {
        var name := Name(p + 1, "$" + e.name, e.name, rest);
        SkipWs(rest);
        r := Var(name);
      } else if At(value, p) == '@' {
        if At(value, p + 1) == '*' {
          p := p + 2;
          return Child(AllAttrs);
        }
        var name := Name(p + 1, "@" + e.step.name, e.step.name, rest);
        SkipWs(rest);
        r := Child(AttrOf(name));
      } else {
        assert IsSelChar(At(value, p));
        if At(value, p) == '/' {
          p := p + 1;
          r := DoSelect(Child(Named(e.name)), rest, e);
          r := Rooted(r.step.name);
        } else {
          r := DoSelect(e, rest, e);
        }
      }
    }

    /** `do_node_expr` */
    method DoNode(ghost e: Expr, ghost rest: seq<Token>) returns (r: Expr)
      requires Ready(value, p, 8, e, rest)
      modifies this
      ensures r == e && Here(value, p, rest)
      decreases e, Need(8, e)
    {
      ghost var cur, left, ts := ChainStart(8, value, p, e, rest);
      var node1 := DoNode2(cur, ts);
      while true
        invariant Coming(8, node1, left, e, ts, rest) && Here(value, p, ts)
        decreases |left|
      {
        var again;
        ghost var after;
        again, node1, after := StepOrFilter(node1, left, e, ts, rest);
        if !again {
          return node1;
        }
        ts, left := after, left[1..];
      }
    }

    /** One turn of the loop. */
    method StepOrFilter(node1: Expr, ghost left: seq<Expr>, ghost e: Expr, ghost ts: seq<Token>, ghost rest: seq<Token>)
      returns (again: bool, node: Expr, ghost after: seq<Token>)
      requires Coming(8, node1, left, e, ts, rest) && Here(value, p, ts)
      modifies this
      ensures again <==> left != []
      ensures again ==> Coming(8, node, left[1..], e, after, rest) && Here(value, p, after)
      ensures !again ==> node == e && Here(value, p, rest)
      decreases e, 6
    {
      SkipWs(ts);
      after := NodeTurn(value, p, node1, left, e, ts, rest);
      again, node := true, node1;
      if At(value, p) == '/' {
        node := StepDown(node1, left[0], after, e);
      } else if At(value, p) == '[' {
        node := Filtered(node1, left[0], after, e);
      } else {
        again := false;
      }
    }

    /** A slash and the step behind it. */
    method StepDown(node1: Expr, ghost next: Expr, ghost after: seq<Token>, ghost e: Expr) returns (node: Expr)
      requires next.Down? && next.base == node1 && Ready(value, p + 1, 9, Child(next.step), after)
      modifies this
      ensures node == next && Here(value, p, after)
      decreases e, 5
    {
      p := p + 1;
      var node2 := DoSelect(Child(next.step), after, e);
      node := Down(node1, node2.step);
    }

    /** A condition in brackets. */
    method Filtered(node1: Expr, ghost next: Expr, ghost after: seq<Token>, ghost e: Expr) returns (node: Expr)
      requires next.Filter? && next.base == node1 && next.cond < e
      requires HeadOk(after) && Ready(value, p + 1, 0, next.cond, [Sym(RBr)] + after)
      modifies this
      ensures node == next && Here(value, p, after)
      decreases e, 5
    {
      p := p + 1;
      var node2 := Bracketed(RBr, next.cond, after);
      node := Filter(node1, node2);
    }

    /** The word between the operands of `do_union_expr`. */
    method MoreUnion(ghost left: seq<Expr>, ghost e: Expr, ghost ts: seq<Token>, ghost rest: seq<Token>)
      returns (again: bool, ghost after: seq<Token>)
      requires Listing(7, left, e, ts, rest) && Sees(value, p, ts)
      modifies this
      ensures again <==> left != []
      ensures again ==> left[0] < e && Ready(value, p, 8, left[0], after) && Listing(7, left[1..], e, after, rest)
      ensures !again ==> Here(value, p, rest)
    {
      after := UnionTurn(value, p, left, e, ts, rest);
      again := Match("|");
    }

    /** `do_union_expr` */
    method DoUnion(ghost e: Expr, ghost rest: seq<Token>) returns (r: Expr)
      requires Ready(value, p, 7, e, rest)
      modifies this
      ensures r == e && Here(value, p, rest)
      decreases e, Need(7, e)
    {
      SkipTo(7, e, rest);
      ghost var first, left, ts := FlatStart(7, value, p, e, rest);
      var node1 := DoNode(first, ts);
      SkipWs(ts);
      var again, after := MoreUnion(left, e, ts, rest);
      if !again {
        return node1;
      }
      SkipTo(8, left[0], after);
      var nodes := [node1];
      while again
        invariant again ==> left != [] && Flat(7, nodes + left) == e
        invariant again ==> Listing(7, left[1..], e, after, rest) && left[0] < e && Ready(value, p, 8, left[0], after)
        invariant !again ==> Union(nodes) == e && Here(value, p, rest)
        decreases again, |left|
      {
        var node := DoNode(left[0], after);
        FlatShift(7, nodes, left, e);
        nodes := nodes + [node];
        ts, left := after, left[1..];
        SkipWs(ts);
        again, after := MoreUnion(left, e, ts, rest);
      }
      return Union(nodes);
    }

    /** `do_not_expr` */
    method DoNot(ghost e: Expr, ghost rest: seq<Token>) returns (r: Expr)
      requires Ready(value, p, 6, e, rest)
      modifies this
      ensures r == e && Here(value, p, rest)
      decreases e, Need(6, e)
    {
      SkipTo(6, e, rest);
      if e.Not? {
        NotNext(value, p, e, rest);
      } else {
        NoNot(value, p, e, rest);
      }
      var start := p;
      var ok := Match("not");
      if ok {
        if At(value, p) == '(' || IsSpace(At(value, p)) {
          SkipTo(6, e.e, rest);
          var node := DoNot(e.e, rest);
          return Not(node);
        } else {
          p := start;
        }
      }
      r := DoUnion(e, rest);
    }

    /** The operators of `do_mul_expr`. */
    method MulOp(ghost cur: Expr, ghost left: seq<Expr>, ghost e: Expr, ghost ts: seq<Token>, ghost rest: seq<Token>)
      returns (found: bool, op: BinOp, ghost after: seq<Token>)
      requires Coming(5, cur, left, e, ts, rest) && Sees(value, p, ts)
      modifies this
      ensures found <==> left != []
      ensures found ==> left[0].Bin? && left[0].l == cur && left[0].r < e && op == left[0].op
      ensures found ==> Ready(value, p, 6, left[0].r, after) && Coming(5, left[0], left[1..], e, after, rest)
      ensures !found ==> cur == e && Here(value, p, rest)
    {
      after := MulTurn(value, p, cur, left, e, ts, rest);
      op := Times;
      if At(value, p) == '*' {
        op := Times;
        p := p + 1;
      } else {
        var ok := Match("div ");
        if ok {
          op := Div;
        } else {
          ok := Match("mod ");
          if ok {
            op := Mod;
          } else {
            return false, op, after;
          }
        }
      }
      found := true;
    }

    /** `do_mul_expr` */
    method DoMul(ghost e: Expr, ghost rest: seq<Token>) returns (r: Expr)
      requires Ready(value, p, 5, e, rest)
      modifies this
      ensures r == e && Here(value, p, rest)
      decreases e, Need(5, e)
    {
      ghost var cur, left, ts := ChainStart(5, value, p, e, rest);
      var node1 := DoNot(cur, ts);
      while true
        invariant Coming(5, node1, left, e, ts, rest) && Here(value, p, ts)
        decreases |left|
      {
        SkipWs(ts);
        var found, op, after := MulOp(node1, left, e, ts, rest);
        if !found {
          return node1;
        }
        SkipTo(6, left[0].r, after);
        var node2 := DoNot(left[0].r, after);
        node1 := Bin(op, node1, node2);
        ts, left := after, left[1..];
      }
    }

    /** The operators of `do_add_expr`. */
    method AddOp(ghost cur: Expr, ghost left: seq<Expr>, ghost e: Expr, ghost ts: seq<Token>, ghost rest: seq<Token>)
      returns (found: bool, op: BinOp, ghost after: seq<Token>)
      requires Coming(4, cur, left, e, ts, rest) && Sees(value, p, ts)
      modifies this
      ensures found <==> left != []
      ensures found ==> left[0].Bin? && left[0].l == cur && left[0].r < e && op == left[0].op
      ensures found ==> Ready(value, p, 5, left[0].r, after) && Coming(4, left[0], left[1..], e, after, rest)
      ensures !found ==> cur == e && Here(value, p, rest)
    {
      after := AddTurn(value, p, cur, left, e, ts, rest);
      op := Plus;
      if At(value, p) == '+' {
        op := Plus;
        p := p + 1;
      } else if At(value, p) == '-' {
        op := Minus;
        p := p + 1;
      } else {
        return false, op, after;
      }
      found := true;
    }

    /** `do_add_expr` */
    method DoAdd(ghost e: Expr, ghost rest: seq<Token>) returns (r: Expr)
      requires Ready(value, p, 4, e, rest)
      modifies this
      ensures r == e && Here(value, p, rest)
      decreases e, Need(4, e)
    {
      ghost var cur, left, ts := ChainStart(4, value, p, e, rest);
      var node1 := DoMul(cur, ts);
      while true
        invariant Coming(4, node1, left, e, ts, rest) && Here(value, p, ts)
        decreases |left|
      {
        SkipWs(ts);
        var found, op, after := AddOp(node1, left, e, ts, rest);
        if !found {
          return node1;
        }
        SkipTo(5, left[0].r, after);
        var node2 := DoMul(left[0].r, after);
        node1 := Bin(op, node1, node2);
        ts, left := after, left[1..];
      }
    }

    /** The operators of `do_rel_expr`. */
    method RelOp(ghost cur: Expr, ghost left: seq<Expr>, ghost e: Expr, ghost ts: seq<Token>, ghost rest: seq<Token>)
      returns (found: bool, op: BinOp, ghost after: seq<Token>)
      requires Coming(3, cur, left, e, ts, rest) && Sees(value, p, ts)
      modifies this
      ensures found <==> left != []
      ensures found ==> left[0].Bin? && left[0].l == cur && left[0].r < e && op == left[0].op
      ensures found ==> Ready(value, p, 4, left[0].r, after) && Coming(3, left[0], left[1..], e, after, rest)
      ensures !found ==> cur == e && Here(value, p, rest)
    {
      after := RelTurn(value, p, cur, left, e, ts, rest);
      op := Lt;
      var ok := Match("<=");
      if ok {
        op := Le;
      } else {
        ok := Match(">=");
        if ok {
          op := Ge;
        } else {
          ok := Match("<");
          if ok {
            op := Lt;
          } else {
            ok := Match(">");
            if ok {
              op := Gt;
            } else {
              return false, op, after;
            }
          }
        }
      }
      found := true;
    }

    /** `do_rel_expr` */
    method DoRel(ghost e: Expr, ghost rest: seq<Token>) returns (r: Expr)
      requires Ready(value, p, 3, e, rest)
      modifies this
      ensures r == e && Here(value, p, rest)
      decreases e, Need(3, e)
    {
      ghost var cur, left, ts := ChainStart(3, value, p, e, rest);
      var node1 := DoAdd(cur, ts);
      while true
        invariant Coming(3, node1, left, e, ts, rest) && Here(value, p, ts)
        decreases |left|
      {
        SkipWs(ts);
        var found, op, after := RelOp(node1, left, e, ts, rest);
        if !found {
          return node1;
        }
        SkipTo(4, left[0].r, after);
        var node2 := DoAdd(left[0].r, after);
        node1 := Bin(op, node1, node2);
        ts, left := after, left[1..];
      }
    }

    /** The operators of `do_eq_expr`. */
    method EqOp(ghost cur: Expr, ghost left: seq<Expr>, ghost e: Expr, ghost ts: seq<Token>, ghost rest: seq<Token>)
      returns (found: bool, op: BinOp, ghost after: seq<Token>)
      requires Coming(2, cur, left, e, ts, rest) && Sees(value, p, ts)
      modifies this
      ensures found <==> left != []
      ensures found ==> left[0].Bin? && left[0].l == cur && left[0].r < e && op == left[0].op
      ensures found ==> Ready(value, p, 3, left[0].r, after) && Coming(2, left[0], left[1..], e, after, rest)
      ensures !found ==> cur == e && Here(value, p, rest)
    {
      after := EqTurn(value, p, cur, left, e, ts, rest);
      op := Eq;
      if At(value, p) == '=' {
        op := Eq;
        p := p + 1;
      } else if At(value, p) == '!' && At(value, p + 1) == '=' {
        op := Ne;
        p := p + 2;
      } else {
        return false, op, after;
      }
      found := true;
    }

    /** `do_eq_expr` */
    method DoEq(ghost e: Expr, ghost rest: seq<Token>) returns (r: Expr)
      requires Ready(value, p, 2, e, rest)
      modifies this
      ensures r == e && Here(value, p, rest)
      decreases e, Need(2, e)
    {
      ghost var cur, left, ts := ChainStart(2, value, p, e, rest);
      var node1 := DoRel(cur, ts);
      while true
        invariant Coming(2, node1, left, e, ts, rest) && Here(value, p, ts)
        decreases |left|
      {
        SkipWs(ts);
        var found, op, after := EqOp(node1, left, e, ts, rest);
        if !found {
          return node1;
        }
        SkipTo(3, left[0].r, after);
        var node2 := DoRel(left[0].r, after);
        node1 := Bin(op, node1, node2);
        ts, left := after, left[1..];
      }
    }

    /** The word between the operands of `do_and_expr`. */
    method MoreAnd(ghost left: seq<Expr>, ghost e: Expr, ghost ts: seq<Token>, ghost rest: seq<Token>)
      returns (again: bool, ghost after: seq<Token>)
      requires Listing(1, left, e, ts, rest) && Sees(value, p, ts)
      modifies this
      ensures again <==> left != []
      ensures again ==> left[0] < e && Ready(value, p, 2, left[0], after) && Listing(1, left[1..], e, after, rest)
      ensures !again ==> Here(value, p, rest)
    {
      after := AndTurn(value, p, left, e, ts, rest);
      again := Match("and ");
    }

    /** `do_and_expr` */
    method DoAnd(ghost e: Expr, ghost rest: seq<Token>) returns (r: Expr)
      requires Ready(value, p, 1, e, rest)
      modifies this
      ensures r == e && Here(value, p, rest)
      decreases e, Need(1, e)
    {
      SkipTo(1, e, rest);
      ghost var first, left, ts := FlatStart(1, value, p, e, rest);
      var node1 := DoEq(first, ts);
      SkipWs(ts);
      var again, after := MoreAnd(left, e, ts, rest);
      if !again {
        return node1;
      }
      SkipTo(2, left[0], after);
      var nodes := [node1];
      while again
        invariant again ==> left != [] && Flat(1, nodes + left) == e
        invariant again ==> Listing(1, left[1..], e, after, rest) && left[0] < e && Ready(value, p, 2, left[0], after)
        invariant !again ==> And(nodes) == e && Here(value, p, rest)
        decreases again, |left|
      {
        var node := DoEq(left[0], after);
        FlatShift(1, nodes, left, e);
        nodes := nodes + [node];
        ts, left := after, left[1..];
        SkipWs(ts);
        again, after := MoreAnd(left, e, ts, rest);
      }
      return And(nodes);
    }

    /** The word between the operands of `do_or_expr`. */
    method MoreOr(ghost left: seq<Expr>, ghost e: Expr, ghost ts: seq<Token>, ghost rest: seq<Token>)
      returns (again: bool, ghost after: seq<Token>)
      requires Listing(0, left, e, ts, rest) && Sees(value, p, ts)
      modifies this
      ensures again <==> left != []
      ensures again ==> left[0] < e && Ready(value, p, 1, left[0], after) && Listing(0, left[1..], e, after, rest)
      ensures !again ==> Here(value, p, rest)
    {
      after := OrTurn(value, p, left, e, ts, rest);
      again := Match("or ");
    }

    /** `do_or_expr` */
    method DoOr(ghost e: Expr, ghost rest: seq<Token>) returns (r: Expr)
      requires Ready(value, p, 0, e, rest)
      modifies this
      ensures r == e && Here(value, p, rest)
      decreases e, Need(0, e)
    {
      SkipTo(0, e, rest);
      ghost var first, left, ts := FlatStart(0, value, p, e, rest);
      var node1 := DoAnd(first, ts);
      SkipWs(ts);
      var again, after := MoreOr(left, e, ts, rest);
      if !again {
        return node1;
      }
      SkipTo(1, left[0], after);
      var nodes := [node1];
      while again
        invariant again ==> left != [] && Flat(0, nodes + left) == e
        invariant again ==> Listing(0, left[1..], e, after, rest) && left[0] < e && Ready(value, p, 1, left[0], after)
        invariant !again ==> Or(nodes) == e && Here(value, p, rest)
        decreases again, |left|
      {
        var node := DoAnd(left[0], after);
        FlatShift(0, nodes, left, e);
        nodes := nodes + [node];
        ts, left := after, left[1..];
        SkipWs(ts);
        again, after := MoreOr(left, e, ts, rest);
      }
      return Or(nodes);
    }
  }

  /** What the first characters say about an operand. */
  lemma Primary(s: string, p: nat, e: Expr, rest: seq<Token>)
    requires Facing(s, p, 9, e, rest)
    ensures At(s, p) == '\'' <==> e.Text?
    ensures At(s, p) == '(' <==> Level(e) < 9
    ensures At(s, p) == '(' ==> Ready(s, p + 1, 0, e, [Sym(RPar)] + rest)
    ensures CanNumber(s, p) ==> e.Int? || Level(e) < 9 || e.Text?
    ensures e.Int? ==> CanNumber(s, p) && Sees(s, p, [Word(Show(e.n))] + rest)
    ensures At(s, p) == '$' <==> e.Var?
    ensures e.Var? ==> Sees(s, p, [Word("$" + e.name)] + rest)
    ensures At(s, p) == '@' <==> e.Child? && (e.step.AttrOf? || e.step.AllAttrs?)
    ensures e == Child(AllAttrs) ==> At(s, p + 1) == '*' && Here(s, p + 2, rest)
    ensures e.Child? && e.step.AttrOf? ==> At(s, p + 1) != '*' && Sees(s, p, [Word("@" + e.step.name)] + rest)
    ensures At(s, p) == '/' <==> e.Rooted?
    ensures e.Rooted? ==> Ready(s, p + 1, 9, Child(Named(e.name)), rest)
    ensures e.Rooted? || e.Call? || (e.Child? && !e.step.AttrOf? && !e.step.AllAttrs?) ==> IsSelChar(At(s, p))
  {
    if Level(e) < 9 {
      ParenNext(s, p, e, rest);
    } else {
      match e {
        case Int(n) => NumberNext(s, p, n, rest);
        case Text(w) => TextNext(s, p, w, rest);
        case Var(n) => VarNext(s, p, n, rest);
        case Rooted(n) => RootNext(s, p, n, rest);
        case _ => SelectNext(s, p, e, rest);
      }
    }
  }

  /** `xpath_compile`: the compiler gives back the expression whose text it reads. */
  method Compile(expr: string, ghost e: Expr) returns (r: Expr)
    requires Wf(e) && expr == Print(e)
    ensures r == e
  {
    var cursor := new Cursor(expr);
    assert expr[0..] == expr;
    assert Tokens(0, e) + [] == Tokens(0, e);
    r := cursor.DoOr(e, []);
  }
}
