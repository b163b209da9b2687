/** How the tokens of an expression lie in the text, and what the scanner's tests find there. */
module XPathText {
  import opened Chars
  import opened XPathSyntax

  /** The cursor stands on the first of the tokens left. */
  ghost predicate Sees(s: string, p: nat, ts: seq<Token>) {
    p <= |s| && s[p..] == Join(ts)
  }

  /** The cursor stands there or on the space in front. */
  ghost predicate Here(s: string, p: nat, ts: seq<Token>) {
    p <= |s| && (s[p..] == Join(ts) || s[p..] == Behind(ts))
  }

  lemma SkipsWs(s: string, p: nat, ts: seq<Token>)
    requires Here(s, p, ts) && HeadOk(ts)
    ensures if IsSpace(At(s, p)) then Sees(s, p + 1, ts) else Sees(s, p, ts)
  {
    if p < |s| {
      assert s[p..][0] == s[p];
      if |ts| > 0 {
        assert Join(ts)[0] == Spell(ts[0])[0];
      }
      if IsSpace(s[p]) {
        assert s[p..] == " " + Join(ts);
        assert s[p + 1..] == s[p..][1..];
      }
    }
  }

  /** The first token, character by character, and what follows it. */
  lemma OnToken(s: string, p: nat, t: Token, ts: seq<Token>)
    requires Sees(s, p, [t] + ts)
    ensures p + |Spell(t)| <= |s| && s[p..p + |Spell(t)|] == Spell(t)
    ensures forall i :: 0 <= i < |Spell(t)| ==> At(s, p + i) == Spell(t)[i]
    ensures At(s, p + |Spell(t)|) == if |ts| == 0 then '\0' else ' '
    ensures Here(s, p + |Spell(t)|, ts)
    ensures |ts| > 0 ==> Sees(s, p + |Spell(t)| + 1, ts)
  {
    var w := Spell(t);
    assert ([t] + ts)[1..] == ts;
    assert s[p..] == w + Behind(ts);
    assert forall i :: 0 <= i < |s| - p ==> s[p..][i] == s[p + i];
    assert s[p..p + |w|] == s[p..][..|w|] == w;
    assert s[p + |w|..] == s[p..][|w|..] == Behind(ts);
    if |ts| > 0 {
      assert s[p + |w| + 1..] == s[p + |w|..][1..] == Join(ts);
    }
  }

  // ---------- match ----------

  /** A space in a pattern stands for white space or an opening parenthesis. */
  predicate CharFits(a: char, c: char) {
    c == a || (a == ' ' && (IsSpace(c) || c == '('))
  }

  ghost predicate Fits(s: string, p: nat, pat: string) {
    forall i :: 0 <= i < |pat| ==> CharFits(pat[i], At(s, p + i))
  }

  /** The words the loops look for. */
  predicate IsWordSym(o: Sym) {
    o == OrS || o == AndS || o == OpS(Div) || o == OpS(Mod)
  }

  lemma FirstChars(o: Sym, q: Sym)
    requires IsWordSym(q) && SpellSym(o)[0] == SpellSym(q)[0]
    ensures o == q
  {
  }

  /** `match` with a word and a space finds exactly that token. */
  lemma MatchesWord(s: string, p: nat, ts: seq<Token>, q: Sym)
    requires Sees(s, p, ts) && IsWordSym(q)
    requires |ts| > 0 ==> ts[0].Sym?
    requires |ts| > 0 && ts[0].o == q ==> |ts| > 1
    ensures Fits(s, p, SpellSym(q) + " ") <==> |ts| > 0 && ts[0] == Sym(q)
    ensures |ts| > 0 && ts[0] == Sym(q) ==> Sees(s, p + |SpellSym(q)| + 1, ts[1..])
  {
    var pat := SpellSym(q) + " ";
    assert pat[0] == SpellSym(q)[0] && pat[0] != ' ';
    if |ts| > 0 {
      assert ts == [ts[0]] + ts[1..];
      OnToken(s, p, ts[0], ts[1..]);
      if ts[0].o == q {
        forall i | 0 <= i < |pat| ensures CharFits(pat[i], At(s, p + i)) {
          if i < |pat| - 1 {
            assert At(s, p + i) == SpellSym(q)[i];
          }
        }
      } else {
        if SpellSym(ts[0].o)[0] == SpellSym(q)[0] {
          FirstChars(ts[0].o, q);
        }
        assert At(s, p + 0) == SpellSym(ts[0].o)[0];
        assert !CharFits(pat[0], At(s, p + 0));
      }
    } else {
      assert At(s, p + 0) == '\0';
      assert !CharFits(pat[0], At(s, p + 0));
    }
  }

  /** Tests on one character, and on the character behind. */
  lemma OnSym(s: string, p: nat, ts: seq<Token>)
    requires Sees(s, p, ts)
    requires |ts| > 0 ==> ts[0].Sym?
    ensures |ts| == 0 ==> At(s, p) == '\0'
    ensures |ts| > 0 ==>
      && At(s, p) == SpellSym(ts[0].o)[0]
      && (|SpellSym(ts[0].o)| == 2 ==> At(s, p + 1) == SpellSym(ts[0].o)[1])
      && (|SpellSym(ts[0].o)| == 1 ==> At(s, p + 1) == '\0' || At(s, p + 1) == ' ')
      && Here(s, p + |SpellSym(ts[0].o)|, ts[1..])
  {
    if |ts| > 0 {
      assert ts == [ts[0]] + ts[1..];
      OnToken(s, p, ts[0], ts[1..]);
      assert At(s, p + 0) == SpellSym(ts[0].o)[0];
    }
  }

  /** Patterns of symbols only: `match` compares just their characters. */
  lemma FitsSymbols(s: string, p: nat, pat: string)
    requires 1 <= |pat| <= 2 && pat[0] != ' ' && (|pat| == 2 ==> pat[1] != ' ')
    ensures Fits(s, p, pat) <==> At(s, p) == pat[0] && (|pat| == 2 ==> At(s, p + 1) == pat[1])
  {
    if Fits(s, p, pat) {
      assert CharFits(pat[0], At(s, p + 0));
      if |pat| == 2 {
        assert CharFits(pat[1], At(s, p + 1));
      }
    }
  }

  // ---------- operands ----------

  /** An axis never fits a name: it ends in two colons. */
  lemma NoAxis(s: string, p: nat, n: string, ts: seq<Token>, pat: string)
    requires Sees(s, p, [Word(n)] + ts) && IsName(n)
    requires |pat| >= 2 && pat[|pat| - 2] == ':' && pat[|pat| - 1] == ':'
    requires forall i :: 0 <= i < |pat| ==> pat[i] != ' ' && pat[i] != '\0'
    ensures !Fits(s, p, pat)
  {
    OnToken(s, p, Word(n), ts);
    if |pat| > |n| {
      assert !CharFits(pat[|n|], At(s, p + |n|));
    } else if n[|pat| - 1] != ':' {
      assert !CharFits(pat[|pat| - 1], At(s, p + (|pat| - 1)));
    } else {
      assert !CharFits(pat[|pat| - 2], At(s, p + (|pat| - 2)));
    }
  }

  lemma SpellsNot(w: string)
    requires |w| == 3 && w[0] == 'n' && w[1] == 'o' && w[2] == 't'
    ensures w == "not"
  {
  }

  /** `not` in front of an operand that is not a negation: no match, or a longer name. */
  lemma NotNot(s: string, p: nat, t: Token, ts: seq<Token>)
    requires Sees(s, p, [t] + ts) && Operand(t)
    ensures Fits(s, p, "not") ==> At(s, p + 3) != '(' && !IsSpace(At(s, p + 3))
  {
    OnToken(s, p, t, ts);
    var w := Spell(t);
    if w[0] != 'n' {
      assert !CharFits("not"[0], At(s, p + 0));
    } else if |w| == 1 || w[1] != 'o' {
      assert !CharFits("not"[1], At(s, p + 1));
    } else if |w| == 2 || w[2] != 't' {
      assert !CharFits("not"[2], At(s, p + 2));
    } else if |w| == 3 {
      SpellsNot(w);
    } else {
      assert At(s, p + 3) == w[3];
    }
  }

  lemma IsNot(s: string, p: nat, ts: seq<Token>)
    requires Sees(s, p, [Sym(NotS)] + ts) && |ts| > 0
    ensures Fits(s, p, "not") && At(s, p + 3) == ' ' && Here(s, p + 3, ts)
  {
    OnToken(s, p, Sym(NotS), ts);
    forall i | 0 <= i < 3 ensures CharFits("not"[i], At(s, p + i)) {
      assert At(s, p + i) == Spell(Sym(NotS))[i];
    }
  }

  /** `x_can_number` */
  predicate CanNumber(s: string, p: nat) {
    var q := if At(s, p) == '-' then p + 1 else p;
    var r := if At(s, q) == '.' then q + 1 else q;
    IsDigit(At(s, r))
  }
}
