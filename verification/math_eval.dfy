/** The numeric-entry expression evaluator: tokenizer, recursive descent with one
    shared cursor, and null on any error.  Numbers are exact reals. */
module MathEval {
  import opened Wrappers
  import opened Text

  datatype Token = Num(r: real) | Plus | Minus | Star | Slash | LParen | RParen

  /** The outcome of a parse step: thrown, or a value and the cursor after it. */
  datatype Parsed = Thrown | Done(v: real, pos: nat)

  /** One arithmetic step; a division needs a non-zero divisor. */
  function Apply(op: Token, a: real, b: real): real
    requires op.Slash? ==> b != 0.0
  {
    match op
    case Plus => a + b
    case Minus => a - b
    case Star => a * b
    case Slash => a / b
    case _ => a
  }

  // ---- what the three parse functions compute ----

  function ExprFrom(t: seq<Token>, pos: nat): (r: Parsed)
    requires pos <= |t|
    ensures r.Done? ==> pos < r.pos <= |t|
    decreases |t| - pos, 3
  {
    var l := TermFrom(t, pos);
    if l.Thrown? then Thrown else ExprLoop(t, l.v, l.pos)
  }

  function ExprLoop(t: seq<Token>, v: real, pos: nat): (r: Parsed)
    requires pos <= |t|
    ensures r.Done? ==> pos <= r.pos <= |t|
    decreases |t| - pos, 3
  {
    if pos < |t| && (t[pos].Plus? || t[pos].Minus?) then
      var r := TermFrom(t, pos + 1);
      if r.Thrown? then Thrown
      else ExprLoop(t, Apply(t[pos], v, r.v), r.pos)
    else Done(v, pos)
  }

  function TermFrom(t: seq<Token>, pos: nat): (r: Parsed)
    requires pos <= |t|
    ensures r.Done? ==> pos < r.pos <= |t|
    decreases |t| - pos, 2
  {
    var l := FactorFrom(t, pos);
    if l.Thrown? then Thrown else TermLoop(t, l.v, l.pos)
  }

  function TermLoop(t: seq<Token>, v: real, pos: nat): (r: Parsed)
    requires pos <= |t|
    ensures r.Done? ==> pos <= r.pos <= |t|
    decreases |t| - pos, 2
  {
    if pos < |t| && (t[pos].Star? || t[pos].Slash?) then
      var r := FactorFrom(t, pos + 1);
      if r.Thrown? || (t[pos].Slash? && r.v == 0.0) then Thrown
      else TermLoop(t, Apply(t[pos], v, r.v), r.pos)
    else Done(v, pos)
  }

  function FactorFrom(t: seq<Token>, pos: nat): (r: Parsed)
    requires pos <= |t|
    ensures r.Done? ==> pos < r.pos <= |t|
    decreases |t| - pos, 1
  {
    if pos >= |t| then Thrown
    else
      match t[pos]
      case Minus =>
        var r := FactorFrom(t, pos + 1);
        if r.Thrown? then Thrown else Done(-r.v, r.pos)
      case Plus => FactorFrom(t, pos + 1)
      case LParen =>
        var r := ExprFrom(t, pos + 1);
        if r.Thrown? || r.pos >= |t| || !t[r.pos].RParen? then Thrown else Done(r.v, r.pos + 1)
      case Num(n) => Done(n, pos + 1)
      case _ => Thrown
  }

  /** The evaluator on tokens: null when empty, on an error or on trailing junk. */
  function EvalTokens(t: seq<Token>): Option<real> {
    if t == [] then None
    else
      var r := ExprFrom(t, 0);
      if r.Thrown? || r.pos != |t| then None else Some(r.v)
  }

  // ---- the parser object ----

  /** A token list and the cursor the three methods advance; None is a throw. */
  class Parser {
    const t: seq<Token>
    var pos: nat

    constructor (tokens: seq<Token>)
      ensures t == tokens && pos == 0
    {
      t := tokens;
      pos := 0;
    }

    ghost predicate Reports(r: Option<real>, spec: Parsed)
      reads this
    {
      if spec.Thrown? then r.None? else r == Some(spec.v) && pos == spec.pos
    }

    method ParseExpr() returns (r: Option<real>)
      requires pos <= |t|
      modifies this`pos
      ensures Reports(r, ExprFrom(t, old(pos)))
      decreases |t| - pos, 3
    {
      var first := ParseTerm();
      if first.None? { return None; }
      var v := first.value;
      while pos < |t|
        invariant old(pos) < pos <= |t|
        invariant ExprFrom(t, old(pos)) == ExprLoop(t, v, pos)
        decreases |t| - pos
      {
        var op := t[pos];
        if !op.Plus? && !op.Minus? { break; }
        pos := pos + 1;
        var next := ParseTerm();
        if next.None? { return None; }
        v := Apply(op, v, next.value);
      }
      return Some(v);
    }

    method ParseTerm() returns (r: Option<real>)
      requires pos <= |t|
      modifies this`pos
      ensures Reports(r, TermFrom(t, old(pos)))
      decreases |t| - pos, 2
    {
      var first := ParseFactor();
      if first.None? { return None; }
      var v := first.value;
      while pos < |t|
        invariant old(pos) < pos <= |t|
        invariant TermFrom(t, old(pos)) == TermLoop(t, v, pos)
        decreases |t| - pos
      {
        var op := t[pos];
        if !op.Star? && !op.Slash? { break; }
        pos := pos + 1;
        var next := ParseFactor();
        if next.None? { return None; }
        if op.Slash? {
          if next.value == 0.0 { return None; }
        }
        v := Apply(op, v, next.value);
      }
      return Some(v);
    }

    method ParseFactor() returns (r: Option<real>)
      requires pos <= |t|
      modifies this`pos
      ensures Reports(r, FactorFrom(t, old(pos)))
      decreases |t| - pos, 1
    {
      if pos >= |t| { return None; }
      var tok := t[pos];
      match tok {
        case Minus =>
          pos := pos + 1;
          var f := ParseFactor();
          if f.None? { return None; }
          return Some(-f.value);
        case Plus =>
          pos := pos + 1;
          r := ParseFactor();
          return;
        case LParen =>
          pos := pos + 1;
          var e := ParseExpr();
          if e.None? || pos >= |t| || !t[pos].RParen? { return None; }
          pos := pos + 1;
          return e;
        case Num(n) =>
          pos := pos + 1;
          return Some(n);
        case _ =>
          return None;
      }
    }
  }

  // ---- tokenizer ----

  predicate NumChar(c: char) { IsDigit(c) || c == '.' }

  function NumRun(s: string): (n: nat)
    ensures n <= |s|
  {
    if s == "" || !NumChar(s[0]) then 0 else 1 + NumRun(s[1..])
  }

  function DigitSpan(s: string): (n: nat)
    ensures n <= |s|
  {
    if s == "" || !IsDigit(s[0]) then 0 else 1 + DigitSpan(s[1..])
  }

  /** `parseFloat` of a run of digits and points: everything from a second point on
      is ignored; None is NaN. */
  function ParseFloat(num: string): Option<real> {
    var p := DigitSpan(num);
    var rest := if p < |num| && num[p] == '.' then num[p + 1..] else "";
    var ip, fp := num[..p], rest[..DigitSpan(rest)];
    if AllDigits(ip + fp) && |ip + fp| > 0 then Some(Scaled(false, DigitsVal(ip + fp), |fp|)) else None
  }

  predicate Blank(c: char) { c == ' ' || c == '\t' }

  function OpOf(c: char): Option<Token> {
    if c == '+' then Some(Plus) else if c == '-' then Some(Minus)
    else if c == '*' then Some(Star) else if c == '/' then Some(Slash)
    else if c == '(' then Some(LParen) else if c == ')' then Some(RParen) else None
  }

  predicate StartsNumber(s: string) {
    s != "" && (IsDigit(s[0]) || (s[0] == '.' && |s| > 1 && IsDigit(s[1])))
  }

  /** The characters and token at the head of a text: blanks give no token; None is a reject. */
  function HeadToken(s: string): (r: Option<(nat, seq<Token>)>)
    requires s != ""
    ensures r.Some? ==> 0 < r.value.0 <= |s|
  {
    if Blank(s[0]) then Some((1, []))
    else if StartsNumber(s) then
      var n := ParseFloat(s[..NumRun(s)]);
      if n.None? then None else Some((NumRun(s), [Num(n.value)]))
    else if OpOf(s[0]).Some? then Some((1, [OpOf(s[0]).value]))
    else None
  }

  function TokensOf(s: string): Option<seq<Token>>
    decreases |s|
  {
    if s == "" then Some([])
    else
      var h := HeadToken(s);
      if h.None? then None
      else
        var rest := TokensOf(s[h.value.0..]);
        if rest.None? then None else Some(h.value.1 + rest.value)
  }

  function Then(done: seq<Token>, rest: Option<seq<Token>>): Option<seq<Token>> {
    if rest.None? then None else Some(done + rest.value)
  }

  /** The tokens out, and those of what is left from i on, are the text's. */
  ghost predicate Scanned(expr: string, out: seq<Token>, i: nat)
    requires i <= |expr|
  {
    TokensOf(expr) == Then(out, TokensOf(expr[i..]))
  }

  lemma ScanStart(expr: string)
    ensures Scanned(expr, [], 0)
  {
    assert expr[0..] == expr;
    if TokensOf(expr).Some? { assert [] + TokensOf(expr).value == TokensOf(expr).value; }
  }

  lemma ScanStep(expr: string, out: seq<Token>, i: nat)
    requires i < |expr| && Scanned(expr, out, i)
    ensures HeadToken(expr[i..]).None? ==> TokensOf(expr) == None
    ensures HeadToken(expr[i..]).Some? ==>
              var h := HeadToken(expr[i..]).value; i + h.0 <= |expr| && Scanned(expr, out + h.1, i + h.0)
  {
    var s := expr[i..];
    var h := HeadToken(s);
    if h.Some? {
      assert s[h.value.0..] == expr[i + h.value.0..];
      ThenAssoc(out, h.value.1, TokensOf(s[h.value.0..]));
    }
  }

  method Tokenize(expr: string) returns (tokens: Option<seq<Token>>)
    ensures tokens == TokensOf(expr)
  {
    var out: seq<Token> := [];
    var i := 0;
    ScanStart(expr);
    while i < |expr|
      invariant 0 <= i <= |expr|
      invariant Scanned(expr, out, i)
    {
      ScanStep(expr, out, i);
      var h := HeadToken(expr[i..]);
      if h.None? { return None; }
      out := out + h.value.1;
      i := i + h.value.0;
    }
    assert out + [] == out;
    return Some(out);
  }

  lemma ThenAssoc(a: seq<Token>, b: seq<Token>, rest: Option<seq<Token>>)
    ensures Then(a, Then(b, rest)) == Then(a + b, rest)
  {
    if rest.Some? { assert a + (b + rest.value) == a + b + rest.value; }
  }

  // ---- the whole evaluator ----

  /** ECMAScript white space and line terminators. */
  predicate TrimChar(c: char) {
    var k := c as int;
    9 <= k <= 13 || k == 32 || k == 0xA0 || k == 0x1680 || 0x2000 <= k <= 0x200A
    || k == 0x2028 || k == 0x2029 || k == 0x202F || k == 0x205F || k == 0x3000 || k == 0xFEFF
  }

  function TrimLeft(s: string): string {
    if s == "" || !TrimChar(s[0]) then s else TrimLeft(s[1..])
  }

  function TrimRight(s: string): string {
    if s == "" || !TrimChar(s[|s| - 1]) then s else TrimRight(s[..|s| - 1])
  }

  function Evaluate(expression: string): Option<real> {
    var tokens := TokensOf(TrimRight(TrimLeft(expression)));
    if tokens.None? then None else EvalTokens(tokens.value)
  }

  method EvaluateText(expression: string) returns (r: Option<real>)
    ensures r == Evaluate(expression)
  {
    var trimmed := TrimRight(TrimLeft(expression));
    var tokens := Tokenize(trimmed);
    if tokens.None? || |tokens.value| == 0 { return None; }
    var p := new Parser(tokens.value);
    var result := p.ParseExpr();
    if result.None? || p.pos != |p.t| { return None; }
    return result;
  }
}
