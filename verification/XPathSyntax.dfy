/** Expressions as the XPath compiler builds them, and their minimally parenthesised text. */
module XPathSyntax {
  import opened Chars
  datatype BinOp = Eq | Ne | Lt | Gt | Le | Ge | Plus | Minus | Times | Div | Mod

  /** The part of a location step after its slash. */
  datatype Step = Named(name: string) | AttrOf(name: string) | AllAttrs | Any | Self | Up

  /**
   Compiled expressions. `Child(s)` is a select node below the context, `Rooted(s)` one below the
   root and `Down(b, s)` one below the nodes of b; `And`, `Or` and `Union` are the flat nodes.
   */
  datatype Expr =
    | Int(n: int)
    | Text(s: string)
    | Var(name: string)
    | Child(step: Step)
    | Rooted(name: string)
    | Call(name: string, args: seq<Expr>)
    | Down(base: Expr, step: Step)
    | Filter(base: Expr, cond: Expr)
    | Union(es: seq<Expr>)
    | Not(e: Expr)
    | Bin(op: BinOp, l: Expr, r: Expr)
    | And(es: seq<Expr>)
    | Or(es: seq<Expr>)

  // ---------- the characters ----------

  predicate IsDigit(c: char) { '0' <= c <= '9' }

  predicate IsLetter(c: char) { 'A' <= c <= 'Z' || 'a' <= c <= 'z' || c == '_' }

  predicate IsNameChar(c: char) { IsLetter(c) || IsDigit(c) || c == '-' || c == ':' || c == '.' }

  predicate IsSelChar(c: char) { IsNameChar(c) || c == '/' || c == '.' || c == '*' }

  /** The classes by the codes of their characters. */
  lemma CharacterClasses(c: char)
    ensures var n := c as int;
      && (IsLetter(c) <==> 65 <= n <= 90 || 97 <= n <= 122 || n == 95)
      && (IsNameChar(c) <==> 65 <= n <= 90 || 97 <= n <= 122 || n == 95 || 48 <= n <= 57 || n in {45, 46, 58})
      && (IsSelChar(c) <==> 65 <= n <= 90 || 97 <= n <= 122 || n == 95 || 48 <= n <= 57 || n in {45, 46, 58, 47, 42})
  {
    assert 'A' as int == 65 && 'z' as int == 122;
  }

  /** A name an operand can have: no axis in front, and not the word that negates. */
  predicate IsName(s: string) {
    && s != "" && IsLetter(s[0]) && s != "not"
    && (forall i :: 0 <= i < |s| ==> IsNameChar(s[i]))
    && (forall i :: 0 < i < |s| ==> !(s[i - 1] == ':' && s[i] == ':'))
  }

  predicate IsLiteral(s: string) {
    forall i :: 0 <= i < |s| ==> s[i] != '\'' && s[i] != '\0'
  }

  // ---------- numbers ----------

  function Digit(d: nat): char
    requires d < 10
  {
    '0' + d as char
  }

  function ShowNat(n: nat): (s: string)
    ensures s != "" && forall i :: 0 <= i < |s| ==> IsDigit(s[i])
  {
    if n < 10 then [Digit(n)] else ShowNat(n / 10) + [Digit(n % 10)]
  }

  function Show(n: int): string {
    if n < 0 then "-" + ShowNat(-n) else ShowNat(n)
  }

  function Value(c: char): nat
    requires IsDigit(c)
  {
    c as int - '0' as int
  }

  lemma Digits(n: int)
    ensures Show(n) != "" && (IsDigit(Show(n)[0]) || (Show(n)[0] == '-' && |Show(n)| > 1 && IsDigit(Show(n)[1])))
    ensures forall i :: 1 <= i < |Show(n)| ==> IsDigit(Show(n)[i])
  {
  }

  /** What `atol` makes of digits. */
  function Atoi(s: string): nat
    requires forall i :: 0 <= i < |s| ==> IsDigit(s[i])
  {
    if s == "" then 0 else 10 * Atoi(s[..|s| - 1]) + Value(s[|s| - 1])
  }

  lemma {:induction false} AtoiShow(n: nat)
    ensures Atoi(ShowNat(n)) == n
  {
    var s := ShowNat(n);
    if n < 10 {
      assert s[..|s| - 1] == "";
    } else {
      AtoiShow(n / 10);
      assert s[..|s| - 1] == ShowNat(n / 10);
    }
  }

  /** `atol` on the characters of a number. */
  function Atol(t: string): int
    requires t != "" && (IsDigit(t[0]) || t[0] == '-') && forall i :: 1 <= i < |t| ==> IsDigit(t[i])
  {
    if t[0] == '-' then -(Atoi(t[1..]) as int) else Atoi(t)
  }

  lemma AtolShow(n: int)
    requires Show(n) != "" && (IsDigit(Show(n)[0]) || Show(n)[0] == '-') && forall i :: 1 <= i < |Show(n)| ==>
      IsDigit(Show(n)[i])
    ensures Atol(Show(n)) == n
  {
    if n < 0 {
      AtoiShow(-n);
      assert Show(n)[1..] == ShowNat(-n);
    } else {
      AtoiShow(n);
    }
  }

  // ---------- tokens ----------

  datatype Sym = OrS | AndS | OpS(op: BinOp) | NotS | BarS | SlashS | LPar | RPar | LBr | RBr | CommaS

  datatype Token = Word(s: string) | Sym(o: Sym)

  function SpellOp(op: BinOp): string {
    match op
    case Eq => "="
    case Ne => "!="
    case Lt => "<"
    case Gt => ">"
    case Le => "<="
    case Ge => ">="
    case Plus => "+"
    case Minus => "-"
    case Times => "*"
    case Div => "div"
    case Mod => "mod"
  }

  function SpellSym(o: Sym): string {
    match o
    case OrS => "or"
    case AndS => "and"
    case OpS(op) => SpellOp(op)
    case NotS => "not"
    case BarS => "|"
    case SlashS => "/"
    case LPar => "("
    case RPar => ")"
    case LBr => "["
    case RBr => "]"
    case CommaS => ","
  }

  function Spell(t: Token): string {
    match t
    case Word(s) => s
    case Sym(o) => SpellSym(o)
  }

  /** The tokens with one space between neighbours. */
  function Join(ts: seq<Token>): string
    decreases |ts|, 0
  {
    if |ts| == 0 then "" else Spell(ts[0]) + Behind(ts[1..])
  }

  function Behind(ts: seq<Token>): string
    decreases |ts|, 1
  {
    if |ts| == 0 then "" else " " + Join(ts)
  }

  // ---------- levels ----------

  function OpLevel(op: BinOp): (k: nat)
    ensures 2 <= k <= 5
  {
    match op
    case Eq | Ne => 2
    case Lt | Gt | Le | Ge => 3
    case Plus | Minus => 4
    case Times | Div | Mod => 5
  }

  /** How tightly the outermost construct of an expression binds. */
  function Level(e: Expr): (k: nat)
    ensures k <= 9
  {
    match e
    case Or(_) => 0
    case And(_) => 1
    case Bin(op, _, _) => OpLevel(op)
    case Not(_) => 6
    case Union(_) => 7
    case Down(_, _) => 8
    case Filter(_, _) => 8
    case _ => 9
  }

  /** The level whose loop a symbol continues; -1 for those that end every loop. */
  function Rank(o: Sym): int {
    match o
    case OrS => 0
    case AndS => 1
    case OpS(op) => OpLevel(op)
    case BarS => 7
    case SlashS => 8
    case LBr => 8
    case RPar => -1
    case RBr => -1
    case CommaS => -1
    case LPar => 9
    case NotS => 9
  }

  /** Nothing in front of `rest` continues an expression of level k. */
  predicate Stops(k: nat, rest: seq<Token>) {
    |rest| > 0 ==> rest[0].Sym? && Rank(rest[0].o) < k
  }

  // ---------- printing ----------

  function StepToken(s: Step): Token {
    match s
    case Named(n) => Word(n)
    case AttrOf(n) => Word("@" + n)
    case AllAttrs => Word("@*")
    case Any => Word("*")
    case Self => Word(".")
    case Up => Word("..")
  }

  /** The tokens of an expression where level k is wanted. */
  function Tokens(k: nat, e: Expr): seq<Token>
    decreases e, 1
  {
    if Level(e) < k then [Sym(LPar)] + Body(e) + [Sym(RPar)] else Body(e)
  }

  function Body(e: Expr): seq<Token>
    decreases e, 0
  {
    match e
    case Int(n) => [Word(Show(n))]
    case Text(s) => [Word("'" + s + "'")]
    case Var(n) => [Word("$" + n)]
    case Child(s) => [StepToken(s)]
    case Rooted(n) => [Sym(SlashS), Word(n)]
    case Call(f, args) => [Word(f), Sym(LPar)] + List(0, CommaS, args) + [Sym(RPar)]
    case Down(b, s) => Tokens(8, b) + [Sym(SlashS), StepToken(s)]
    case Filter(b, c) => Tokens(8, b) + ([Sym(LBr)] + Tokens(0, c) + [Sym(RBr)])
    case Union(es) => List(8, BarS, es)
    case Not(x) => [Sym(NotS)] + Tokens(6, x)
    case Bin(op, l, r) => Tokens(OpLevel(op), l) + ([Sym(OpS(op))] + Tokens(OpLevel(op) + 1, r))
    case And(es) => List(2, AndS, es)
    case Or(es) => List(1, OrS, es)
  }

  function List(k: nat, o: Sym, es: seq<Expr>): seq<Token>
    decreases es, 2
  {
    if |es| == 0 then [] else Tokens(k, es[0]) + Listed(k, o, es[1..])
  }

  function Listed(k: nat, o: Sym, es: seq<Expr>): seq<Token>
    decreases es, 3
  {
    if |es| == 0 then [] else [Sym(o)] + List(k, o, es)
  }

  /** The text of an expression. */
  function Print(e: Expr): string {
    Join(Tokens(0, e))
  }

  /** Expressions with a text: names are names, and the flat nodes have at least two parts. */
  predicate Wf(e: Expr) {
    match e
    case Int(n) => -0x8000_0000_0000_0000 <= n < 0x8000_0000_0000_0000
    case Text(s) => IsLiteral(s)
    case Var(n) => IsName(n)
    case Child(s) => WfStep(s)
    case Rooted(n) => IsName(n)
    case Call(f, args) => IsName(f) && forall i :: 0 <= i < |args| ==> Wf(args[i])
    case Down(b, s) => Wf(b) && WfStep(s)
    case Filter(b, c) => Wf(b) && Wf(c)
    case Union(es) => |es| >= 2 && forall i :: 0 <= i < |es| ==> Wf(es[i])
    case Not(x) => Wf(x)
    case Bin(_, l, r) => Wf(l) && Wf(r)
    case And(es) => |es| >= 2 && forall i :: 0 <= i < |es| ==> Wf(es[i])
    case Or(es) => |es| >= 2 && forall i :: 0 <= i < |es| ==> Wf(es[i])
  }

  predicate WfStep(s: Step) {
    match s
    case Named(n) => IsName(n)
    case AttrOf(n) => IsName(n)
    case _ => true
  }

  // ---------- left-associative chains ----------

  /** `e` was put on top of its left part by the loop of level k. */
  predicate Continues(k: nat, e: Expr) {
    (e.Bin? && OpLevel(e.op) == k) || (k == 8 && (e.Down? || e.Filter?))
  }

  function Left(e: Expr): (l: Expr)
    requires exists k: nat :: Continues(k, e)
    ensures l < e
  {
    if e.Bin? then e.l else e.base
  }

  /** What the loop reads to put `e` on top of its left part. */
  function More(e: Expr): seq<Token> {
    match e
    case Bin(op, _, r) => [Sym(OpS(op))] + Tokens(OpLevel(op) + 1, r)
    case Down(_, s) => [Sym(SlashS), StepToken(s)]
    case Filter(_, c) => [Sym(LBr)] + Tokens(0, c) + [Sym(RBr)]
    case _ => []
  }

  /** The trees the loop of level k builds on the way to `e`. */
  function Spine(k: nat, e: Expr): (sp: seq<Expr>)
    ensures |sp| > 0 && sp[|sp| - 1] == e
    decreases e
  {
    if Continues(k, e) then Spine(k, Left(e)) + [e] else [e]
  }

  function Tail(sp: seq<Expr>): seq<Token> {
    if |sp| == 0 then [] else More(sp[0]) + Tail(sp[1..])
  }

  lemma Assoc(a: seq<Token>, b: seq<Token>, c: seq<Token>)
    ensures (a + b) + c == a + (b + c)
  {
  }

  lemma {:induction false} TailAppend(sp: seq<Expr>, e: Expr)
    ensures Tail(sp + [e]) == Tail(sp) + More(e)
  {
    if sp == [] {
      assert sp + [e] == [e] && [e][1..] == [];
      assert Tail([e]) == More(e) + Tail([]);
    } else {
      TailAppend(sp[1..], e);
      assert (sp + [e])[1..] == sp[1..] + [e];
      Assoc(More(sp[0]), Tail(sp[1..]), More(e));
    }
  }

  lemma Topped(k: nat, e: Expr)
    requires Continues(k, e)
    ensures Tokens(k, e) == Tokens(k, Left(e)) + More(e)
  {
  }

  lemma Passed(k: nat, e: Expr)
    requires (k == 8 || 2 <= k <= 5) && !Continues(k, e)
    ensures Tokens(k, e) == Tokens(k + 1, e)
  {
    assert Level(e) != k;
  }

  /** The text of a chain: its first operand, then what each turn of the loop reads. */
  lemma {:induction false} SpineTokens(k: nat, e: Expr)
    requires k == 8 || 2 <= k <= 5
    ensures Tokens(k, e) == Tokens(k + 1, Spine(k, e)[0]) + Tail(Spine(k, e)[1..])
    decreases e
  {
    var sp := Spine(k, e);
    if Continues(k, e) {
      var sl := Spine(k, Left(e));
      SpineTokens(k, Left(e));
      TailAppend(sl[1..], e);
      assert sp[1..] == sl[1..] + [e];
      Topped(k, e);
      Assoc(Tokens(k + 1, sl[0]), Tail(sl[1..]), More(e));
    } else {
      Passed(k, e);
      assert sp[1..] == [];
    }
  }

  /** Every tree of the chain has the one before as its left part, and all are parts of `e`. */
  lemma {:induction false} SpineLinks(k: nat, e: Expr)
    requires Wf(e)
    ensures var sp := Spine(k, e);
      && (forall i :: 0 < i < |sp| ==> Continues(k, sp[i]) && Left(sp[i]) == sp[i - 1])
      && (forall i :: 0 <= i < |sp| ==> Wf(sp[i]) && (sp[i] == e || sp[i] < e))
      && (sp[0] == e ==> !Continues(k, e))
    decreases e
  {
    if Continues(k, e) {
      SpineLinks(k, Left(e));
    }
  }

  // ---------- first tokens ----------

  /** What an operand starts with. */
  predicate Operand(t: Token) {
    match t
    case Word(w) => w != "" && (IsName(w) || (!IsLetter(w[0]) && !IsSpace(w[0]) && w[0] != ')'))
    case Sym(o) => o == LPar || o == SlashS
  }

  lemma {:induction false} FirstToken(k: nat, e: Expr)
    requires Wf(e)
    ensures |Tokens(k, e)| > 0
    ensures Operand(Tokens(k, e)[0]) || (k <= 6 && Tokens(k, e)[0] == Sym(NotS))
    decreases e
  {
    if Level(e) >= k {
      match e {
        case Int(n) => assert IsDigit(ShowNat(if n < 0 then -n else n)[0]);
        case Union(es) => FirstListed(8, BarS, es);
        case And(es) => FirstListed(2, AndS, es);
        case Or(es) => FirstListed(1, OrS, es);
        case Down(b, _) => FirstToken(8, b);
        case Filter(b, _) => FirstToken(8, b);
        case Bin(op, l, _) => FirstToken(OpLevel(op), l);
        case _ =>
      }
    }
  }

  lemma {:induction false} FirstListed(k: nat, o: Sym, es: seq<Expr>)
    requires |es| > 0 && Wf(es[0])
    ensures |List(k, o, es)| > 0
    ensures Operand(List(k, o, es)[0]) || (k <= 6 && List(k, o, es)[0] == Sym(NotS))
    decreases es
  {
    FirstToken(k, es[0]);
  }

  /** Tokens start with a character the compiler does not skip. */
  predicate HeadOk(ts: seq<Token>) {
    |ts| > 0 ==> Spell(ts[0]) != "" && !IsSpace(Spell(ts[0])[0])
  }

  lemma HeadsOk(k: nat, e: Expr, rest: seq<Token>)
    requires Wf(e)
    ensures HeadOk(Tokens(k, e) + rest)
  {
    FirstToken(k, e);
    assert (Tokens(k, e) + rest)[0] == Tokens(k, e)[0];
  }

  lemma StopsOk(k: nat, rest: seq<Token>)
    requires Stops(k, rest)
    ensures HeadOk(rest)
  {
  }

  // ---------- what the loops have in front of them ----------

  /** The operands of the flat node of level k; an expression of another level is its only operand. */
  function Parts(k: nat, e: Expr): (es: seq<Expr>)
    ensures |es| > 0 || Level(e) == k
  {
    if k == 0 && e.Or? then e.es else if k == 1 && e.And? then e.es else if k == 7 && e.Union? then e.es else [e]
  }

  function FlatSym(k: nat): Sym {
    if k == 0 then OrS else if k == 1 then AndS else BarS
  }

  lemma FlatParts(k: nat, e: Expr)
    requires Wf(e) && (k == 0 || k == 1 || k == 7)
    ensures var es := Parts(k, e);
      && |es| > 0 && (forall i :: 0 <= i < |es| ==> Wf(es[i]) && (es[i] == e || es[i] < e))
      && (es[0] == e ==> es == [e] && Level(e) != k)
      && (if |es| == 1 then es == [e] else Level(e) == k)
  {
  }

  lemma FlatBody(k: nat, e: Expr)
    requires Wf(e) && (k == 0 || k == 1 || k == 7)
    ensures |Parts(k, e)| > 0 && Tokens(k, e) == Tokens(k + 1, Parts(k, e)[0]) + Listed(k + 1, FlatSym(k),
      Parts(k, e)[1..])
  {
    var es := Parts(k, e);
    if Level(e) == k {
      assert Tokens(k, e) == List(k + 1, FlatSym(k), es);
    } else {
      assert Tokens(k, e) == Tokens(k + 1, e);
      assert es[1..] == [];
    }
  }

  lemma FlatTokens(k: nat, e: Expr, rest: seq<Token>)
    requires Wf(e) && (k == 0 || k == 1 || k == 7)
    ensures |Parts(k, e)| > 0
    ensures Tokens(k, e) + rest == Tokens(k + 1, Parts(k, e)[0]) + (Listed(k + 1, FlatSym(k), Parts(k, e)[1..]) + rest)
  {
    FlatBody(k, e);
    Assoc(Tokens(k + 1, Parts(k, e)[0]), Listed(k + 1, FlatSym(k), Parts(k, e)[1..]), rest);
  }

  lemma ListTokens(k: nat, o: Sym, es: seq<Expr>, rest: seq<Token>)
    requires |es| > 0
    ensures List(k, o, es) + rest == Tokens(k, es[0]) + (Listed(k, o, es[1..]) + rest)
    ensures Listed(k, o, es) + rest == [Sym(o)] + (List(k, o, es) + rest)
  {
    Assoc(Tokens(k, es[0]), Listed(k, o, es[1..]), rest);
    Assoc([Sym(o)], List(k, o, es), rest);
  }

  /** The separator, or what ends the list, stops the operand in front of it. */
  lemma ListedStops(k: nat, o: Sym, es: seq<Expr>, rest: seq<Token>)
    requires Rank(o) < k && Stops(k, rest)
    ensures Stops(k, Listed(k, o, es) + rest) && HeadOk(Listed(k, o, es) + rest)
    ensures |es| > 0 ==> (Listed(k, o, es) + rest)[0] == Sym(o)
  {
    var ts := Listed(k, o, es) + rest;
    if |es| > 0 {
      ListTokens(k, o, es, rest);
    } else {
      assert ts == rest;
    }
    StopsOk(k, ts);
  }

  lemma ListHead(k: nat, o: Sym, es: seq<Expr>, rest: seq<Token>)
    requires (|es| > 0 ==> Wf(es[0])) && HeadOk(rest)
    ensures HeadOk(List(k, o, es) + rest)
    ensures |es| > 0 ==> |List(k, o, es) + rest| > 0
  {
    if |es| > 0 {
      ListTokens(k, o, es, rest);
      FirstToken(k, es[0]);
      HeadsOk(k, es[0], Listed(k, o, es[1..]) + rest);
    } else {
      assert List(k, o, es) + rest == rest;
    }
  }

  /** The loop of level k has built `cur`, and the trees still to come lead to `e`. */
  ghost predicate Rises(k: nat, cur: Expr, left: seq<Expr>, e: Expr)
    decreases |left|
  {
    if |left| == 0 then cur == e
    else
      && Continues(k, left[0]) && Left(left[0]) == cur && Wf(left[0]) && (left[0] == e || left[0] < e)
      && Rises(k, left[0], left[1..], e)
  }

  lemma {:induction false} SpineRises(k: nat, e: Expr, i: nat)
    requires Wf(e) && i < |Spine(k, e)|
    ensures Rises(k, Spine(k, e)[i], Spine(k, e)[i + 1..], e)
    decreases |Spine(k, e)| - i
  {
    var sp := Spine(k, e);
    SpineLinks(k, e);
    if i + 1 < |sp| {
      SpineRises(k, e, i + 1);
      assert sp[i + 1..][1..] == sp[i + 2..];
    }
  }

  lemma MoreHead(k: nat, e: Expr)
    requires (k == 8 || 2 <= k <= 5) && Continues(k, e)
    ensures |More(e)| > 0 && More(e)[0].Sym? && Rank(More(e)[0].o) == k
  {
  }

  lemma TailStops(k: nat, cur: Expr, left: seq<Expr>, e: Expr, rest: seq<Token>)
    requires (k == 8 || 2 <= k <= 5) && Rises(k, cur, left, e) && Stops(k, rest)
    ensures Stops(k + 1, Tail(left) + rest) && HeadOk(Tail(left) + rest)
  {
    var ts := Tail(left) + rest;
    if |left| > 0 {
      MoreHead(k, left[0]);
      assert ts[0] == More(left[0])[0];
    } else {
      assert ts == rest;
    }
    StopsOk(k + 1, ts);
  }

  lemma ChainTokens(k: nat, e: Expr, rest: seq<Token>)
    requires Wf(e) && (k == 8 || 2 <= k <= 5) && Stops(k, rest)
    ensures var sp := Spine(k, e);
      && Tokens(k, e) + rest == Tokens(k + 1, sp[0]) + (Tail(sp[1..]) + rest)
      && Rises(k, sp[0], sp[1..], e) && Wf(sp[0]) && (sp[0] < e || (sp[0] == e && !Continues(k, e)))
  {
    var sp := Spine(k, e);
    SpineTokens(k, e);
    SpineLinks(k, e);
    SpineRises(k, e, 0);
    Assoc(Tokens(k + 1, sp[0]), Tail(sp[1..]), rest);
  }

  /** One turn of a binary loop. */
  lemma BinTokens(k: nat, cur: Expr, left: seq<Expr>, e: Expr, rest: seq<Token>)
    requires 2 <= k <= 5 && |left| > 0 && Rises(k, cur, left, e)
    ensures left[0].Bin? && OpLevel(left[0].op) == k
    ensures Tail(left) + rest == [Sym(OpS(left[0].op))] + (Tokens(k + 1, left[0].r) + (Tail(left[1..]) + rest))
  {
    Assoc(More(left[0]), Tail(left[1..]), rest);
    Assoc([Sym(OpS(left[0].op))], Tokens(k + 1, left[0].r), Tail(left[1..]) + rest);
  }

  lemma StepTokens(cur: Expr, left: seq<Expr>, e: Expr, rest: seq<Token>)
    requires |left| > 0 && Rises(8, cur, left, e) && left[0].Down?
    ensures Tail(left) + rest == [Sym(SlashS)] + ([StepToken(left[0].step)] + (Tail(left[1..]) + rest))
  {
  }

  lemma FilterTokens(cur: Expr, left: seq<Expr>, e: Expr, rest: seq<Token>)
    requires |left| > 0 && Rises(8, cur, left, e) && left[0].Filter?
    ensures Tail(left) + rest == [Sym(LBr)] + (Tokens(0, left[0].cond) + ([Sym(RBr)] + (Tail(left[1..]) + rest)))
  {
  }
}
