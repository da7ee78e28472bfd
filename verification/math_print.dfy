/** Printing an expression tree with the parentheses it needs or has, any spacing, and
    evaluating the text gives the tree's value. */
module MathPrint {
  import opened Wrappers
  import opened Text
  import opened MathEval
  import opened MathGrammar

  /** An arithmetic expression; a literal is its digits before and after the point, and
      `Paren` a pair of parentheses the writer chose. */
  datatype Tree =
    | Lit(ip: string, fp: string)
    | Neg(t: Tree)
    | Pos(t: Tree)
    | Paren(t: Tree)
    | Add(l: Tree, r: Tree)
    | Sub(l: Tree, r: Tree)
    | Mul(l: Tree, r: Tree)
    | Div(l: Tree, r: Tree)

  predicate ValidLit(ip: string, fp: string) { AllDigits(ip + fp) && |ip + fp| > 0 }

  predicate ValidTree(t: Tree) {
    match t
    case Lit(ip, fp) => ValidLit(ip, fp)
    case Neg(u) => ValidTree(u)
    case Pos(u) => ValidTree(u)
    case Paren(u) => ValidTree(u)
    case Add(l, r) => ValidTree(l) && ValidTree(r)
    case Sub(l, r) => ValidTree(l) && ValidTree(r)
    case Mul(l, r) => ValidTree(l) && ValidTree(r)
    case Div(l, r) => ValidTree(l) && ValidTree(r)
  }

  function LitValue(ip: string, fp: string): real
    requires AllDigits(ip + fp)
  {
    Scaled(false, DigitsVal(ip + fp), |fp|)
  }

  /** The mathematical value; None when a divisor is zero. */
  function TreeValue(t: Tree): Option<real>
    requires ValidTree(t)
  {
    match t
    case Lit(ip, fp) => Some(LitValue(ip, fp))
    case Neg(u) => if TreeValue(u).None? then None else Some(-TreeValue(u).value)
    case Pos(u) => TreeValue(u)
    case Paren(u) => TreeValue(u)
    case Add(l, r) =>
      var a, b := TreeValue(l), TreeValue(r);
      if a.None? || b.None? then None else Some(a.value + b.value)
    case Sub(l, r) =>
      var a, b := TreeValue(l), TreeValue(r);
      if a.None? || b.None? then None else Some(a.value - b.value)
    case Mul(l, r) =>
      var a, b := TreeValue(l), TreeValue(r);
      if a.None? || b.None? then None else Some(a.value * b.value)
    case Div(l, r) =>
      var a, b := TreeValue(l), TreeValue(r);
      if a.None? || b.None? || b.value == 0.0 then None else Some(a.value / b.value)
  }

  // ---- printing ----

  datatype Lexeme = LNum(ip: string, fp: string) | LOp(tok: Token)

  predicate IsSum(t: Tree) { t.Add? || t.Sub? }
  predicate IsProduct(t: Tree) { t.Mul? || t.Div? }

  function PrintSum(t: Tree): seq<Lexeme>
    requires IsSum(t)
    decreases t, 0
  {
    PrintE(t.l) + ([LOp(if t.Sub? then Minus else Plus)] + PrintT(t.r))
  }

  function PrintProduct(t: Tree): seq<Lexeme>
    requires IsProduct(t)
    decreases t, 0
  {
    PrintT(t.l) + ([LOp(if t.Div? then Slash else Star)] + PrintF(t.r))
  }

  function PrintE(t: Tree): seq<Lexeme>
    decreases t, 3
  {
    if IsSum(t) then PrintSum(t) else PrintT(t)
  }

  function PrintT(t: Tree): seq<Lexeme>
    decreases t, 2
  {
    if IsProduct(t) then PrintProduct(t) else PrintF(t)
  }

  function PrintF(t: Tree): seq<Lexeme>
    decreases t, 1
  {
    if t.Lit? then [LNum(t.ip, t.fp)]
    else if t.Neg? then [LOp(Minus)] + PrintF(t.t)
    else if t.Pos? then [LOp(Plus)] + PrintF(t.t)
    else if t.Paren? then [LOp(LParen)] + (PrintE(t.t) + [LOp(RParen)])
    else if IsSum(t) then [LOp(LParen)] + (PrintSum(t) + [LOp(RParen)])
    else [LOp(LParen)] + (PrintProduct(t) + [LOp(RParen)])
  }

  // ---- the derivation of the printed form ----

  function SumExp(t: Tree): Exp
    requires IsSum(t) && ValidTree(t)
    decreases t, 0
  {
    EOp(ToE(t.l), t.Sub?, ToT(t.r))
  }

  function ProductTer(t: Tree): Ter
    requires IsProduct(t) && ValidTree(t)
    decreases t, 0
  {
    TOp(ToT(t.l), t.Div?, ToF(t.r))
  }

  function ToE(t: Tree): Exp
    requires ValidTree(t)
    decreases t, 3
  {
    if IsSum(t) then SumExp(t) else ET(ToT(t))
  }

  function ToT(t: Tree): Ter
    requires ValidTree(t)
    decreases t, 2
  {
    if IsProduct(t) then ProductTer(t) else TF(ToF(t))
  }

  function ToF(t: Tree): Fac
    requires ValidTree(t)
    decreases t, 1
  {
    if t.Lit? then FNum(LitValue(t.ip, t.fp))
    else if t.Neg? then FNeg(ToF(t.t))
    else if t.Pos? then FPos(ToF(t.t))
    else if t.Paren? then FParen(ToE(t.t))
    else if IsSum(t) then FParen(SumExp(t))
    else FParen(ET(ProductTer(t)))
  }

  ghost predicate ValidLexeme(x: Lexeme) {
    match x
    case LNum(ip, fp) => ValidLit(ip, fp)
    case LOp(tok) => !tok.Num?
  }

  ghost predicate AllValid(ls: seq<Lexeme>) { forall i :: 0 <= i < |ls| ==> ValidLexeme(ls[i]) }

  ghost function TokenOf(x: Lexeme): Token
    requires ValidLexeme(x)
  {
    match x
    case LNum(ip, fp) => Num(LitValue(ip, fp))
    case LOp(tok) => tok
  }

  ghost function TokensIn(ls: seq<Lexeme>): seq<Token>
    requires AllValid(ls)
  {
    if ls == [] then [] else [TokenOf(ls[0])] + TokensIn(ls[1..])
  }

  /** A printed list of lexemes stands for the tokens `ts`. */
  ghost predicate Spells(ls: seq<Lexeme>, ts: seq<Token>) { AllValid(ls) && TokensIn(ls) == ts }

  lemma {:induction false} SpellsConcat(a: seq<Lexeme>, ta: seq<Token>, b: seq<Lexeme>, tb: seq<Token>)
    requires Spells(a, ta) && Spells(b, tb)
    ensures Spells(a + b, ta + tb)
  {
    if a == [] {
      assert a + b == b && ta + tb == tb;
    } else {
      assert (a + b)[1..] == a[1..] + b;
      SpellsConcat(a[1..], TokensIn(a[1..]), b, tb);
      assert ta + tb == [TokenOf(a[0])] + (TokensIn(a[1..]) + tb);
    }
  }

  lemma SpellsJoin(a: seq<Lexeme>, ta: seq<Token>, op: Token, b: seq<Lexeme>, tb: seq<Token>)
    requires Spells(a, ta) && Spells(b, tb) && !op.Num?
    ensures Spells(a + ([LOp(op)] + b), ta + ([op] + tb))
  {
    SpellsConcat([LOp(op)], [op], b, tb);
    SpellsConcat(a, ta, [LOp(op)] + b, [op] + tb);
  }

  lemma SpellsParen(a: seq<Lexeme>, ta: seq<Token>)
    requires Spells(a, ta)
    ensures Spells([LOp(LParen)] + (a + [LOp(RParen)]), [LParen] + (ta + [RParen]))
  {
    SpellsConcat(a, ta, [LOp(RParen)], [RParen]);
    SpellsConcat([LOp(LParen)], [LParen], a + [LOp(RParen)], ta + [RParen]);
  }

  lemma SumValue(t: Tree)
    requires IsSum(t) && ValidTree(t)
    ensures TreeValue(t) == SumOf(t.Sub?, TreeValue(t.l), TreeValue(t.r))
  {
  }

  lemma ProductValue(t: Tree)
    requires IsProduct(t) && ValidTree(t)
    ensures TreeValue(t) == ProductOf(t.Div?, TreeValue(t.l), TreeValue(t.r))
  {
  }

  lemma {:induction false} SumPrints(t: Tree)
    requires IsSum(t) && ValidTree(t)
    ensures Spells(PrintSum(t), YieldE(SumExp(t))) && ValueE(SumExp(t)) == TreeValue(t)
    decreases t, 0
  {
    ExpPrints(t.l);
    TermPrints(t.r);
    SumValue(t);
    SpellsJoin(PrintE(t.l), YieldE(ToE(t.l)), AddOp(t.Sub?), PrintT(t.r), YieldT(ToT(t.r)));
  }

  lemma {:induction false} ProductPrints(t: Tree)
    requires IsProduct(t) && ValidTree(t)
    ensures Spells(PrintProduct(t), YieldT(ProductTer(t))) && ValueT(ProductTer(t)) == TreeValue(t)
    decreases t, 0
  {
    TermPrints(t.l);
    FactorPrints(t.r);
    ProductValue(t);
    SpellsJoin(PrintT(t.l), YieldT(ToT(t.l)), MulOp(t.Div?), PrintF(t.r), YieldF(ToF(t.r)));
  }

  lemma {:induction false} ExpPrints(t: Tree)
    requires ValidTree(t)
    ensures Spells(PrintE(t), YieldE(ToE(t))) && ValueE(ToE(t)) == TreeValue(t)
    decreases t, 3
  {
    if IsSum(t) { SumPrints(t); } else { TermPrints(t); }
  }

  lemma {:induction false} TermPrints(t: Tree)
    requires ValidTree(t)
    ensures Spells(PrintT(t), YieldT(ToT(t))) && ValueT(ToT(t)) == TreeValue(t)
    decreases t, 2
  {
    if IsProduct(t) { ProductPrints(t); } else { FactorPrints(t); }
  }

  ghost predicate FactorPrinted(t: Tree)
    requires ValidTree(t)
  {
    Spells(PrintF(t), YieldF(ToF(t))) && ValueF(ToF(t)) == TreeValue(t)
  }

  lemma LitPrinted(t: Tree)
    requires ValidTree(t) && t.Lit?
    ensures FactorPrinted(t)
  {
    assert TokensIn([LNum(t.ip, t.fp)][1..]) == [];
  }

  lemma SignPrinted(t: Tree)
    requires ValidTree(t) && (t.Neg? || t.Pos?) && FactorPrinted(t.t)
    ensures FactorPrinted(t)
  {
    var op := if t.Neg? then Minus else Plus;
    SpellsConcat([LOp(op)], [op], PrintF(t.t), YieldF(ToF(t.t)));
  }

  lemma ParenPrinted(t: Tree)
    requires ValidTree(t) && t.Paren?
    requires Spells(PrintE(t.t), YieldE(ToE(t.t))) && ValueE(ToE(t.t)) == TreeValue(t.t)
    ensures FactorPrinted(t)
  {
    SpellsParen(PrintE(t.t), YieldE(ToE(t.t)));
  }

  lemma ParenSumPrinted(t: Tree)
    requires ValidTree(t) && IsSum(t)
    requires Spells(PrintSum(t), YieldE(SumExp(t))) && ValueE(SumExp(t)) == TreeValue(t)
    ensures FactorPrinted(t)
  {
    SpellsParen(PrintSum(t), YieldE(SumExp(t)));
  }

  lemma ParenProductPrinted(t: Tree)
    requires ValidTree(t) && IsProduct(t)
    requires Spells(PrintProduct(t), YieldT(ProductTer(t))) && ValueT(ProductTer(t)) == TreeValue(t)
    ensures FactorPrinted(t)
  {
    SpellsParen(PrintProduct(t), YieldT(ProductTer(t)));
  }

  lemma {:induction false} FactorPrints(t: Tree)
    requires ValidTree(t)
    ensures FactorPrinted(t)
    decreases t, 1
  {
    if t.Lit? {
      LitPrinted(t);
    } else if t.Neg? || t.Pos? {
      FactorPrints(t.t);
      SignPrinted(t);
    } else if t.Paren? {
      ExpPrints(t.t);
      ParenPrinted(t);
    } else if IsSum(t) {
      SumPrints(t);
      ParenSumPrinted(t);
    } else {
      ProductPrints(t);
      ParenProductPrinted(t);
    }
  }

  // ---- text of lexemes ----

  function OpChar(tok: Token): char
  {
    match tok
    case Plus => '+'
    case Minus => '-'
    case Star => '*'
    case Slash => '/'
    case LParen => '('
    case _ => ')'
  }

  function LexText(x: Lexeme): string {
    match x
    case LNum(ip, fp) => if fp == "" then ip else ip + ("." + fp)
    case LOp(tok) => [OpChar(tok)]
  }

  /** The lexemes with a gap of blanks after each but the last. */
  function Render(ls: seq<Lexeme>, gaps: seq<string>): string
    requires |gaps| >= |ls|
  {
    if ls == [] then ""
    else if |ls| == 1 then LexText(ls[0])
    else LexText(ls[0]) + (gaps[0] + Render(ls[1..], gaps[1..]))
  }

  ghost predicate AllBlank(s: string) { forall i :: 0 <= i < |s| ==> s[i] == ' ' || s[i] == '\t' }

  /** Gaps are blanks; two numbers in a row are set apart. */
  ghost predicate GapsFit(ls: seq<Lexeme>, gaps: seq<string>) {
    && |gaps| >= |ls|
    && (forall i :: 0 <= i < |gaps| ==> AllBlank(gaps[i]))
    && (forall i :: 0 <= i < |ls| - 1 && ls[i].LNum? && ls[i + 1].LNum? ==> gaps[i] != "")
  }

  lemma {:induction false} TokensSkipBlank(a: string, s: string)
    requires AllBlank(a)
    ensures TokensOf(a + s) == TokensOf(s)
  {
    if a == "" {
      assert a + s == s;
    } else {
      assert (a + s)[1..] == a[1..] + s;
      TokensSkipBlank(a[1..], s);
      if TokensOf(s).Some? { assert [] + TokensOf(s).value == TokensOf(s).value; }
    }
  }

  lemma {:induction false} NumRunOf(d: string, rest: string)
    requires (forall i :: 0 <= i < |d| ==> NumChar(d[i])) && (rest == "" || !NumChar(rest[0]))
    ensures NumRun(d + rest) == |d|
  {
    if d == "" {
      assert d + rest == rest;
    } else {
      assert (d + rest)[1..] == d[1..] + rest;
      NumRunOf(d[1..], rest);
    }
  }

  lemma {:induction false} DigitSpanOf(d: string, rest: string)
    requires AllDigits(d) && (rest == "" || !IsDigit(rest[0]))
    ensures DigitSpan(d + rest) == |d|
  {
    if d == "" {
      assert d + rest == rest;
    } else {
      assert (d + rest)[1..] == d[1..] + rest;
      DigitSpanOf(d[1..], rest);
    }
  }

  lemma LitDigits(ip: string, fp: string)
    requires ValidLit(ip, fp)
    ensures AllDigits(ip) && AllDigits(fp)
  {
    forall i | 0 <= i < |ip| ensures IsDigit(ip[i]) { assert (ip + fp)[i] == ip[i]; }
    forall i | 0 <= i < |fp| ensures IsDigit(fp[i]) { assert (ip + fp)[|ip| + i] == fp[i]; }
  }

  lemma ParseFloatOf(ip: string, fp: string)
    requires ValidLit(ip, fp)
    ensures ParseFloat(LexText(LNum(ip, fp))) == Some(LitValue(ip, fp))
  {
    LitDigits(ip, fp);
    if fp == "" {
      DigitSpanOf(ip, "");
      assert ip + "" == ip;
      assert ip[..|ip|] == ip;
    } else {
      var num := ip + ("." + fp);
      DigitSpanOf(ip, "." + fp);
      assert num[..|ip|] == ip;
      assert num[|ip| + 1..] == fp;
      DigitSpanOf(fp, "");
      assert fp + "" == fp;
      assert fp[..|fp|] == fp;
    }
  }

  /** What may follow a lexeme directly: anything after an operator, no digit or
      point after a number. */
  ghost predicate MayFollow(x: Lexeme, rest: string) {
    x.LNum? ==> rest == "" || !NumChar(rest[0])
  }

  lemma NumHead(ip: string, fp: string, rest: string)
    requires ValidLit(ip, fp) && (rest == "" || !NumChar(rest[0]))
    ensures var w := LexText(LNum(ip, fp));
            w != "" && HeadToken(w + rest) == Some((|w|, [Num(LitValue(ip, fp))]))
  {
    LitDigits(ip, fp);
    var w := LexText(LNum(ip, fp));
    NumRunOf(w, rest);
    assert (w + rest)[..|w|] == w;
    ParseFloatOf(ip, fp);
    assert (w + rest)[0] == w[0] && !Blank(w[0]);
    assert NumRun(w + rest) == |w|;
    if ip == "" { assert (w + rest)[1] == fp[0]; }
    assert StartsNumber(w + rest);
  }

  lemma LexHead(x: Lexeme, rest: string)
    requires ValidLexeme(x) && MayFollow(x, rest)
    ensures LexText(x) != "" && HeadToken(LexText(x) + rest) == Some((|LexText(x)|, [TokenOf(x)]))
  {
    match x
    case LNum(ip, fp) => NumHead(ip, fp, rest);
    case LOp(tok) => assert (LexText(x) + rest)[0] == OpChar(tok);
  }

  lemma TokensCons(x: Lexeme, rest: string)
    requires ValidLexeme(x) && MayFollow(x, rest)
    ensures TokensOf(LexText(x) + rest) == Then([TokenOf(x)], TokensOf(rest))
  {
    LexHead(x, rest);
    assert (LexText(x) + rest)[|LexText(x)|..] == rest;
  }

  lemma RenderHead(ls: seq<Lexeme>, gaps: seq<string>)
    requires ls != [] && AllValid(ls) && |gaps| >= |ls|
    ensures Render(ls, gaps) != "" && Render(ls, gaps)[0] == LexText(ls[0])[0]
    ensures ls[0].LOp? ==> !NumChar(Render(ls, gaps)[0])
  {
    LexHead(ls[0], "");
  }

  /** The tokenizer reads any fitting spacing of printable lexemes back as their tokens. */
  lemma {:induction false} TokenizeRendered(ls: seq<Lexeme>, gaps: seq<string>)
    requires AllValid(ls) && GapsFit(ls, gaps)
    ensures TokensOf(Render(ls, gaps)) == Some(TokensIn(ls))
  {
    if |ls| == 1 {
      TokensCons(ls[0], "");
      assert LexText(ls[0]) + "" == LexText(ls[0]);
    } else if |ls| > 1 {
      var rest := Render(ls[1..], gaps[1..]);
      TokenizeRendered(ls[1..], gaps[1..]);
      TokensSkipBlank(gaps[0], rest);
      RenderHead(ls[1..], gaps[1..]);
      assert MayFollow(ls[0], gaps[0] + rest) by {
        if gaps[0] == "" { assert gaps[0] + rest == rest; } else { assert Blank(gaps[0][0]); }
      }
      TokensCons(ls[0], gaps[0] + rest);
    }
  }

  // ---- trimming ----

  /** ECMA-262, section 12.2 and 12.3: white space and line terminators. */
  const WHITE_SPACE: set<int> := {
    0x9, 0xA, 0xB, 0xC, 0xD, 0x20, 0xA0, 0x1680,
    0x2000, 0x2001, 0x2002, 0x2003, 0x2004, 0x2005, 0x2006, 0x2007, 0x2008, 0x2009, 0x200A,
    0x2028, 0x2029, 0x202F, 0x205F, 0x3000, 0xFEFF}

  lemma {:induction false} TrimsExactlyWhiteSpace(c: char)
    ensures TrimChar(c) <==> c as int in WHITE_SPACE
  {
  }

  ghost predicate AllTrim(s: string) { forall i :: 0 <= i < |s| ==> TrimChar(s[i]) }

  lemma {:induction false} TrimLeftOf(pre: string, s: string)
    requires AllTrim(pre) && s != "" && !TrimChar(s[0])
    ensures TrimLeft(pre + s) == s
  {
    if pre == "" {
      assert pre + s == s;
    } else {
      assert (pre + s)[1..] == pre[1..] + s;
      TrimLeftOf(pre[1..], s);
    }
  }

  lemma {:induction false} TrimRightOf(s: string, post: string)
    requires AllTrim(post) && s != "" && !TrimChar(s[|s| - 1])
    ensures TrimRight(s + post) == s
  {
    if post == "" {
      assert s + post == s;
    } else {
      assert (s + post)[..|s + post| - 1] == s + post[..|post| - 1];
      TrimRightOf(s, post[..|post| - 1]);
    }
  }

  lemma LexEnds(x: Lexeme)
    requires ValidLexeme(x)
    ensures var w := LexText(x); w != "" && !TrimChar(w[0]) && !TrimChar(w[|w| - 1])
  {
    match x
    case LNum(ip, fp) =>
      LitDigits(ip, fp);
    case LOp(tok) =>
  }

  lemma {:induction false} RenderEnds(ls: seq<Lexeme>, gaps: seq<string>)
    requires ls != [] && AllValid(ls) && |gaps| >= |ls|
    ensures var s := Render(ls, gaps); s != "" && !TrimChar(s[0]) && !TrimChar(s[|s| - 1])
  {
    LexEnds(ls[0]);
    if |ls| > 1 {
      RenderEnds(ls[1..], gaps[1..]);
    }
  }

  // ---- the theorem ----

  lemma PrintNotEmpty(t: Tree)
    requires ValidTree(t)
    ensures PrintE(t) != []
  {
    ExpPrints(t);
    YieldsSomething(ToE(t));
  }

  /** Printing any expression tree, with any blanks between lexemes and any white
      space around, and evaluating the text gives the tree's value: null exactly
      when the tree divides by zero. */
  lemma {:induction false} PrintedTreeEvaluates(t: Tree, gaps: seq<string>, pre: string, post: string)
    requires ValidTree(t) && GapsFit(PrintE(t), gaps) && AllTrim(pre) && AllTrim(post)
    ensures Evaluate(pre + (Render(PrintE(t), gaps) + post)) == TreeValue(t)
  {
    ExpPrints(t);
    PrintNotEmpty(t);
    var ls := PrintE(t);
    var s := Render(ls, gaps);
    RenderEnds(ls, gaps);
    TrimLeftOf(pre, s + post);
    TrimRightOf(s, post);
    TokenizeRendered(ls, gaps);
    EvaluatesDerivation(ToE(t));
  }
}
