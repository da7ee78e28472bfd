/** The precedence grammar the evaluator accepts, with left-associative values,
    and the proof that the evaluator is sound and complete for it. */
module MathGrammar {
  import opened Wrappers
  import opened MathEval

  // E ::= T | E + T | E - T      T ::= F | T * F | T / F
  // F ::= number | - F | + F | ( E )
  datatype Exp = ET(t: Ter) | EOp(l: Exp, minus: bool, r: Ter)
  datatype Ter = TF(f: Fac) | TOp(l: Ter, slash: bool, r: Fac)
  datatype Fac = FNum(n: real) | FNeg(f: Fac) | FPos(f: Fac) | FParen(e: Exp)

  function AddOp(minus: bool): Token { if minus then Minus else Plus }
  function MulOp(slash: bool): Token { if slash then Slash else Star }

  // ---- the tokens a derivation yields ----

  function YieldE(e: Exp): seq<Token> {
    match e
    case ET(t) => YieldT(t)
    case EOp(l, m, r) => YieldE(l) + ([AddOp(m)] + YieldT(r))
  }

  function YieldT(t: Ter): seq<Token> {
    match t
    case TF(f) => YieldF(f)
    case TOp(l, s, r) => YieldT(l) + ([MulOp(s)] + YieldF(r))
  }

  function YieldF(f: Fac): seq<Token> {
    match f
    case FNum(n) => [Num(n)]
    case FNeg(g) => [Minus] + YieldF(g)
    case FPos(g) => [Plus] + YieldF(g)
    case FParen(e) => [LParen] + (YieldE(e) + [RParen])
  }

  // ---- its value; None when some divisor is zero ----

  function SumOf(minus: bool, a: Option<real>, b: Option<real>): Option<real> {
    if a.None? || b.None? then None
    else if minus then Some(a.value - b.value)
    else Some(a.value + b.value)
  }

  function ProductOf(slash: bool, a: Option<real>, b: Option<real>): Option<real> {
    if a.None? || b.None? || (slash && b.value == 0.0) then None
    else if slash then Some(a.value / b.value)
    else Some(a.value * b.value)
  }

  function ValueE(e: Exp): Option<real> {
    match e
    case ET(t) => ValueT(t)
    case EOp(l, m, r) => SumOf(m, ValueE(l), ValueT(r))
  }

  function ValueT(t: Ter): Option<real> {
    match t
    case TF(f) => ValueF(f)
    case TOp(l, s, r) => ProductOf(s, ValueT(l), ValueF(r))
  }

  function ValueF(f: Fac): Option<real> {
    match f
    case FNum(n) => Some(n)
    case FNeg(g) => if ValueF(g).None? then None else Some(-ValueF(g).value)
    case FPos(g) => ValueF(g)
    case FParen(e) => ValueE(e)
  }

  /** The parser's one step on tokens does the arithmetic its operator stands for. */
  lemma ProductIsApplied(slash: bool, a: Option<real>, b: Option<real>)
    ensures ProductOf(slash, a, b) ==
            if a.None? || b.None? || (slash && b.value == 0.0) then None else Some(Apply(MulOp(slash), a.value, b.value))
  {
  }

  lemma SumIsApplied(minus: bool, a: Option<real>, b: Option<real>)
    ensures SumOf(minus, a, b) == if a.None? || b.None? then None else Some(Apply(AddOp(minus), a.value, b.value))
  {
  }

  // ---- completeness ----

  ghost predicate At(ts: seq<Token>, k: nat, ys: seq<Token>) {
    k + |ys| <= |ts| && ts[k..k + |ys|] == ys
  }

  lemma AtSplit(ts: seq<Token>, k: nat, a: seq<Token>, b: seq<Token>)
    requires At(ts, k, a + b)
    ensures At(ts, k, a) && At(ts, k + |a|, b)
  {
    assert ts[k..k + |a|] == ts[k..k + |a + b|][..|a|];
    assert ts[k + |a|..k + |a| + |b|] == ts[k..k + |a + b|][|a|..];
  }

  lemma AtOne(ts: seq<Token>, k: nat, tok: Token, b: seq<Token>)
    requires At(ts, k, [tok] + b)
    ensures k < |ts| && ts[k] == tok && At(ts, k + 1, b)
  {
    AtSplit(ts, k, [tok], b);
    assert ts[k..k + 1][0] == ts[k];
  }

  lemma AtOp(ts: seq<Token>, k: nat, a: seq<Token>, op: Token, b: seq<Token>, m: nat, n: nat)
    requires At(ts, k, a + ([op] + b)) && m == k + |a| && n == k + |a + ([op] + b)|
    ensures At(ts, k, a) && m < |ts| && ts[m] == op && At(ts, m + 1, b) && m + 1 + |b| == n
  {
    AtSplit(ts, k, a, [op] + b);
    AtOne(ts, m, op, b);
  }

  lemma AtLast(ts: seq<Token>, k: nat, a: seq<Token>, tok: Token, m: nat)
    requires At(ts, k, a + [tok]) && m == k + |a|
    ensures At(ts, k, a) && m < |ts| && ts[m] == tok
  {
    AtSplit(ts, k, a, [tok]);
    assert [tok] + [] == [tok];
    AtOne(ts, m, tok, []);
  }

  /** No multiplicative operator follows, so a term ends here. */
  ghost predicate TermEnds(ts: seq<Token>, k: nat) {
    k >= |ts| || (!ts[k].Star? && !ts[k].Slash?)
  }

  /** The parser reads a factor from `k` to `m`: with value `v`, or throwing. */
  ghost predicate FactorReads(ts: seq<Token>, k: nat, v: Option<real>, m: nat) {
    k <= |ts| && m <= |ts| && FactorFrom(ts, k) == if v.Some? then Done(v.value, m) else Thrown
  }

  /** The parser's view of a term prefix: its value so far, cursor at `m`. */
  ghost predicate TermReaches(ts: seq<Token>, k: nat, v: Option<real>, m: nat) {
    k <= |ts| && m <= |ts| && TermFrom(ts, k) == if v.Some? then TermLoop(ts, v.value, m) else Thrown
  }

  lemma FactorIsTerm(ts: seq<Token>, k: nat, v: Option<real>, m: nat)
    requires FactorReads(ts, k, v, m)
    ensures TermReaches(ts, k, v, m)
  {
  }

  lemma AtTerm(ts: seq<Token>, k: nat, t: Ter) returns (m: nat, n: nat)
    requires t.TOp? && At(ts, k, YieldT(t))
    ensures m == k + |YieldT(t.l)| && n == k + |YieldT(t)| == m + 1 + |YieldF(t.r)|
    ensures At(ts, k, YieldT(t.l)) && m < |ts| && ts[m] == MulOp(t.slash) && At(ts, m + 1, YieldF(t.r))
  {
    m, n := k + |YieldT(t.l)|, k + |YieldT(t)|;
    AtOp(ts, k, YieldT(t.l), MulOp(t.slash), YieldF(t.r), m, n);
  }

  lemma TermStep(ts: seq<Token>, k: nat, v: Option<real>, slash: bool, w: Option<real>, m: nat, n: nat)
    requires TermReaches(ts, k, v, m) && m < |ts| && ts[m] == MulOp(slash) && FactorReads(ts, m + 1, w, n)
    ensures TermReaches(ts, k, ProductOf(slash, v, w), n)
  {
    ProductIsApplied(slash, v, w);
  }

  /** The parser's view of an expression prefix: its value so far, cursor at `m`. */
  ghost predicate ExprReaches(ts: seq<Token>, k: nat, v: Option<real>, m: nat) {
    k <= |ts| && m <= |ts| && ExprFrom(ts, k) == if v.Some? then ExprLoop(ts, v.value, m) else Thrown
  }

  lemma SignStep(ts: seq<Token>, k: nat, v: Option<real>, minus: bool, m: nat)
    requires k < |ts| && ts[k] == AddOp(minus) && FactorReads(ts, k + 1, v, m)
    ensures FactorReads(ts, k, if v.None? then None else Some(if minus then -v.value else v.value), m)
  {
  }

  lemma ParenStep(ts: seq<Token>, k: nat, v: Option<real>, m: nat)
    requires k < |ts| && ts[k] == LParen && ExprReaches(ts, k + 1, v, m) && m < |ts| && ts[m] == RParen
    ensures FactorReads(ts, k, v, m + 1)
  {
  }

  lemma AtSign(ts: seq<Token>, k: nat, f: Fac)
    requires (f.FNeg? || f.FPos?) && At(ts, k, YieldF(f))
    ensures k < |ts| && ts[k] == AddOp(f.FNeg?) && At(ts, k + 1, YieldF(f.f)) && |YieldF(f)| == 1 + |YieldF(f.f)|
  {
    AtOne(ts, k, AddOp(f.FNeg?), YieldF(f.f));
  }

  lemma AtParen(ts: seq<Token>, k: nat, f: Fac) returns (m: nat)
    requires f.FParen? && At(ts, k, YieldF(f))
    ensures m == k + 1 + |YieldE(f.e)| && k + |YieldF(f)| == m + 1
    ensures k < m < |ts| && ts[k] == LParen && At(ts, k + 1, YieldE(f.e)) && ts[m] == RParen
  {
    m := k + 1 + |YieldE(f.e)|;
    AtOne(ts, k, LParen, YieldE(f.e) + [RParen]);
    AtLast(ts, k + 1, YieldE(f.e), RParen, m);
  }

  lemma {:induction false} FactorComplete(f: Fac, ts: seq<Token>, k: nat)
    requires At(ts, k, YieldF(f))
    ensures FactorReads(ts, k, ValueF(f), k + |YieldF(f)|)
    decreases f, 0
  {
    if f.FNum? {
      AtOne(ts, k, Num(f.n), []);
    } else if f.FParen? {
      var m := AtParen(ts, k, f);
      ExprComplete(f.e, ts, k + 1);
      ParenStep(ts, k, ValueE(f.e), m);
    } else {
      AtSign(ts, k, f);
      FactorComplete(f.f, ts, k + 1);
      SignStep(ts, k, ValueF(f.f), f.FNeg?, k + |YieldF(f)|);
    }
  }

  lemma {:induction false} TermComplete(t: Ter, ts: seq<Token>, k: nat)
    requires At(ts, k, YieldT(t))
    ensures TermReaches(ts, k, ValueT(t), k + |YieldT(t)|)
    decreases t, 1
  {
    if t.TF? {
      FactorComplete(t.f, ts, k);
      FactorIsTerm(ts, k, ValueF(t.f), k + |YieldF(t.f)|);
    } else {
      ProductComplete(t, ts, k);
    }
  }

  lemma {:induction false} ProductComplete(t: Ter, ts: seq<Token>, k: nat)
    requires t.TOp? && At(ts, k, YieldT(t))
    ensures TermReaches(ts, k, ValueT(t), k + |YieldT(t)|)
    decreases t, 0
  {
    var m, n := AtTerm(ts, k, t);
    TermComplete(t.l, ts, k);
    FactorComplete(t.r, ts, m + 1);
    TermStep(ts, k, ValueT(t.l), t.slash, ValueF(t.r), m, n);
  }

  lemma TermIsExpr(ts: seq<Token>, k: nat, v: Option<real>, m: nat)
    requires TermReaches(ts, k, v, m) && TermEnds(ts, m)
    ensures ExprReaches(ts, k, v, m)
  {
  }

  lemma AtExpr(ts: seq<Token>, k: nat, e: Exp) returns (m: nat, n: nat)
    requires e.EOp? && At(ts, k, YieldE(e))
    ensures m == k + |YieldE(e.l)| && n == k + |YieldE(e)| == m + 1 + |YieldT(e.r)|
    ensures At(ts, k, YieldE(e.l)) && m < |ts| && ts[m] == AddOp(e.minus) && At(ts, m + 1, YieldT(e.r))
  {
    m, n := k + |YieldE(e.l)|, k + |YieldE(e)|;
    AtOp(ts, k, YieldE(e.l), AddOp(e.minus), YieldT(e.r), m, n);
  }

  lemma ExprStep(ts: seq<Token>, k: nat, v: Option<real>, minus: bool, w: Option<real>, m: nat, n: nat)
    requires ExprReaches(ts, k, v, m) && m < |ts| && ts[m] == AddOp(minus)
    requires TermReaches(ts, m + 1, w, n) && TermEnds(ts, n)
    ensures ExprReaches(ts, k, SumOf(minus, v, w), n)
  {
    SumIsApplied(minus, v, w);
  }

  lemma {:induction false} ExprComplete(e: Exp, ts: seq<Token>, k: nat)
    requires At(ts, k, YieldE(e)) && TermEnds(ts, k + |YieldE(e)|)
    ensures ExprReaches(ts, k, ValueE(e), k + |YieldE(e)|)
    decreases e, 0
  {
    if e.ET? {
      TermComplete(e.t, ts, k);
      TermIsExpr(ts, k, ValueT(e.t), k + |YieldT(e.t)|);
    } else {
      var m, n := AtExpr(ts, k, e);
      ExprComplete(e.l, ts, k);
      TermComplete(e.r, ts, m + 1);
      ExprStep(ts, k, ValueE(e.l), e.minus, ValueT(e.r), m, n);
    }
  }

  // ---- soundness ----

  lemma SliceSplit(ts: seq<Token>, k: nat, m: nat, p: nat)
    requires k <= m < p <= |ts|
    ensures ts[k..p] == ts[k..m] + ([ts[m]] + ts[m + 1..p])
  {
  }

  lemma SliceHead(ts: seq<Token>, k: nat, p: nat)
    requires k < p <= |ts|
    ensures ts[k..p] == [ts[k]] + ts[k + 1..p]
  {
  }

  lemma SliceEnds(ts: seq<Token>, k: nat, p: nat)
    requires k + 1 < p <= |ts|
    ensures ts[k..p] == [ts[k]] + (ts[k + 1..p - 1] + [ts[p - 1]])
  {
  }

  lemma {:induction false} FactorSound(ts: seq<Token>, k: nat) returns (f: Fac)
    requires k <= |ts| && FactorFrom(ts, k).Done?
    ensures YieldF(f) == ts[k..FactorFrom(ts, k).pos]
    ensures ValueF(f) == Some(FactorFrom(ts, k).v)
    decreases |ts| - k, 1
  {
    var p := FactorFrom(ts, k).pos;
    SliceHead(ts, k, p);
    match ts[k]
    case Minus =>
      var g := FactorSound(ts, k + 1);
      f := FNeg(g);
    case Plus =>
      var g := FactorSound(ts, k + 1);
      f := FPos(g);
    case LParen =>
      var e := ExprSound(ts, k + 1);
      SliceEnds(ts, k, p);
      f := FParen(e);
    case Num(n) =>
      assert [Num(n)] + [] == [Num(n)];
      f := FNum(n);
  }

  lemma {:induction false} TermSound(ts: seq<Token>, k: nat) returns (t: Ter)
    requires k <= |ts| && TermFrom(ts, k).Done?
    ensures YieldT(t) == ts[k..TermFrom(ts, k).pos]
    ensures ValueT(t) == Some(TermFrom(ts, k).v)
    decreases |ts| - k, 2
  {
    var f := FactorSound(ts, k);
    t := TermLoopSound(ts, k, FactorFrom(ts, k).pos, TF(f));
  }

  lemma {:induction false} TermLoopSound(ts: seq<Token>, k: nat, m: nat, l: Ter) returns (t: Ter)
    requires k < m <= |ts| && YieldT(l) == ts[k..m] && ValueT(l).Some?
    requires TermLoop(ts, ValueT(l).value, m).Done?
    ensures YieldT(t) == ts[k..TermLoop(ts, ValueT(l).value, m).pos]
    ensures ValueT(t) == Some(TermLoop(ts, ValueT(l).value, m).v)
    decreases |ts| - m, 2
  {
    if m < |ts| && (ts[m].Star? || ts[m].Slash?) {
      var r := FactorSound(ts, m + 1);
      var next := TOp(l, ts[m].Slash?, r);
      ProductIsApplied(ts[m].Slash?, ValueT(l), ValueF(r));
      SliceSplit(ts, k, m, FactorFrom(ts, m + 1).pos);
      t := TermLoopSound(ts, k, FactorFrom(ts, m + 1).pos, next);
    } else {
      t := l;
    }
  }

  lemma {:induction false} ExprSound(ts: seq<Token>, k: nat) returns (e: Exp)
    requires k <= |ts| && ExprFrom(ts, k).Done?
    ensures YieldE(e) == ts[k..ExprFrom(ts, k).pos]
    ensures ValueE(e) == Some(ExprFrom(ts, k).v)
    decreases |ts| - k, 3
  {
    var t := TermSound(ts, k);
    e := ExprLoopSound(ts, k, TermFrom(ts, k).pos, ET(t));
  }

  lemma {:induction false} ExprLoopSound(ts: seq<Token>, k: nat, m: nat, l: Exp) returns (e: Exp)
    requires k < m <= |ts| && YieldE(l) == ts[k..m] && ValueE(l).Some?
    requires ExprLoop(ts, ValueE(l).value, m).Done?
    ensures YieldE(e) == ts[k..ExprLoop(ts, ValueE(l).value, m).pos]
    ensures ValueE(e) == Some(ExprLoop(ts, ValueE(l).value, m).v)
    decreases |ts| - m, 3
  {
    if m < |ts| && (ts[m].Plus? || ts[m].Minus?) {
      var r := TermSound(ts, m + 1);
      var next := EOp(l, ts[m].Minus?, r);
      SumIsApplied(ts[m].Minus?, ValueE(l), ValueT(r));
      SliceSplit(ts, k, m, TermFrom(ts, m + 1).pos);
      e := ExprLoopSound(ts, k, TermFrom(ts, m + 1).pos, next);
    } else {
      e := l;
    }
  }

  // ---- the theorem ----

  lemma {:induction false} YieldsSomething(e: Exp)
    ensures YieldE(e) != []
  {
    match e
    case ET(t) => TermYields(t);
    case EOp(l, m, r) => YieldsSomething(l);
  }

  lemma {:induction false} TermYields(t: Ter)
    ensures YieldT(t) != []
  {
    match t
    case TF(f) =>
    case TOp(l, s, r) => TermYields(l);
  }

  /** On the yield of a derivation the evaluator gives exactly the derivation's
      value, and null exactly when some divisor in it is zero. */
  lemma {:induction false} EvaluatesDerivation(e: Exp)
    ensures EvalTokens(YieldE(e)) == ValueE(e)
  {
    var ts := YieldE(e);
    YieldsSomething(e);
    assert ts[0..|ts|] == ts;
    ExprComplete(e, ts, 0);
  }

  /** Soundness and completeness: the evaluator returns v exactly when the tokens
      derive from the grammar with no zero divisor and left-associative value v. */
  lemma {:induction false} EvaluatorMatchesGrammar(ts: seq<Token>, v: real)
    ensures EvalTokens(ts) == Some(v) <==> exists e :: YieldE(e) == ts && ValueE(e) == Some(v)
  {
    if EvalTokens(ts) == Some(v) {
      var e := ExprSound(ts, 0);
      assert ts[0..|ts|] == ts;
      assert YieldE(e) == ts && ValueE(e) == Some(v);
    }
    if e :| YieldE(e) == ts && ValueE(e) == Some(v) {
      EvaluatesDerivation(e);
    }
  }

  /** Two derivations of the same tokens have the same value. */
  lemma {:induction false} Unambiguous(a: Exp, b: Exp)
    requires YieldE(a) == YieldE(b)
    ensures ValueE(a) == ValueE(b)
  {
    EvaluatesDerivation(a);
    EvaluatesDerivation(b);
  }
}
