/** The evaluator on text: exactly which strings it gives a value, and where that goes
    beyond the ordinary spelling of numbers. */
module MathText {
  import opened Wrappers
  import opened Text
  import opened MathEval
  import opened MathGrammar
  import opened MathPrint

  // ---- spelling ----

  /** A number: digits, perhaps a point and digits, and perhaps junk from a second point
      on; or an operator or parenthesis. */
  datatype Piece = Run(ip: string, point: bool, fp: string, junk: string) | Op(tok: Token)

  ghost predicate AllNum(s: string) { forall i :: 0 <= i < |s| ==> NumChar(s[i]) }

  ghost predicate ValidPiece(p: Piece) {
    match p
    case Run(ip, point, fp, junk) =>
      && ValidLit(ip, fp) && (!point ==> fp == "" && junk == "")
      && AllNum(junk) && (junk != "" ==> junk[0] == '.')
    case Op(tok) => !tok.Num?
  }

  function PieceText(p: Piece): string {
    match p
    case Run(ip, point, fp, junk) => if point then ip + ("." + (fp + junk)) else ip
    case Op(tok) => [OpChar(tok)]
  }

  ghost function PieceToken(p: Piece): Token
    requires ValidPiece(p)
  {
    match p
    case Run(ip, _, fp, _) => Num(LitValue(ip, fp))
    case Op(tok) => tok
  }

  /** Each piece with the gap behind it. */
  datatype Spaced = Spaced(piece: Piece, gap: string)

  ghost predicate AllPieces(ps: seq<Spaced>) { forall i :: 0 <= i < |ps| ==> ValidPiece(ps[i].piece) && AllBlank(ps[i].gap) }

  /** Two numbers in a row are set apart. */
  ghost predicate SetApart(ps: seq<Spaced>) {
    forall i :: 0 <= i < |ps| - 1 && ps[i].piece.Run? && ps[i + 1].piece.Run? ==> ps[i].gap != ""
  }

  function Written(ps: seq<Spaced>): string {
    if ps == [] then "" else PieceText(ps[0].piece) + (ps[0].gap + Written(ps[1..]))
  }

  ghost function Tokens(ps: seq<Spaced>): seq<Token>
    requires AllPieces(ps)
  {
    if ps == [] then [] else [PieceToken(ps[0].piece)] + Tokens(ps[1..])
  }

  ghost predicate Spells(s: string, lead: string, ps: seq<Spaced>) {
    AllBlank(lead) && AllPieces(ps) && SetApart(ps) && s == lead + Written(ps)
  }

  // ---- one number ----

  lemma DigitsThenPoint(d: string, rest: string)
    requires AllDigits(d) && (rest == "" || rest[0] == '.')
    ensures DigitSpan(d + rest) == |d| && (d + rest)[..|d|] == d
  {
    DigitSpanOf(d, rest);
  }

  lemma RunValue(ip: string, point: bool, fp: string, junk: string)
    requires ValidPiece(Run(ip, point, fp, junk))
    ensures ParseFloat(PieceText(Run(ip, point, fp, junk))) == Some(LitValue(ip, fp))
  {
    LitDigits(ip, fp);
    var num := PieceText(Run(ip, point, fp, junk));
    if point {
      DigitsThenPoint(ip, "." + (fp + junk));
      assert num[|ip|] == '.' && num[|ip| + 1..] == fp + junk;
      DigitsThenPoint(fp, junk);
    } else {
      DigitsThenPoint(ip, "");
      assert ip + "" == ip && ip + fp == ip;
    }
  }

  lemma RunShape(ip: string, point: bool, fp: string, junk: string)
    requires ValidPiece(Run(ip, point, fp, junk))
    ensures var num := PieceText(Run(ip, point, fp, junk)); num != "" && AllNum(num) && StartsNumber(num)
  {
    LitDigits(ip, fp);
  }

  lemma RunHead(p: Piece, rest: string)
    requires ValidPiece(p) && p.Run? && (rest == "" || !NumChar(rest[0]))
    ensures PieceText(p) != "" && HeadToken(PieceText(p) + rest) == Some((|PieceText(p)|, [PieceToken(p)]))
  {
    var num := PieceText(p);
    RunShape(p.ip, p.point, p.fp, p.junk);
    RunValue(p.ip, p.point, p.fp, p.junk);
    NumRunOf(num, rest);
    assert (num + rest)[..|num|] == num && (num + rest)[0] == num[0];
    assert StartsNumber(num + rest) && !Blank(num[0]);
  }

  lemma OpHead(tok: Token, rest: string)
    requires !tok.Num?
    ensures HeadToken([OpChar(tok)] + rest) == Some((1, [tok]))
  {
    assert ([OpChar(tok)] + rest)[0] == OpChar(tok);
  }

  lemma HeadThenRest(w: string, tok: Token, rest: string)
    requires w != "" && HeadToken(w + rest) == Some((|w|, [tok]))
    ensures TokensOf(w + rest) == Then([tok], TokensOf(rest))
  {
    assert (w + rest)[|w|..] == rest;
  }

  lemma PieceHead(p: Piece, rest: string)
    requires ValidPiece(p) && (p.Run? ==> rest == "" || !NumChar(rest[0]))
    ensures TokensOf(PieceText(p) + rest) == Then([PieceToken(p)], TokensOf(rest))
  {
    if p.Run? {
      RunHead(p, rest);
    } else {
      OpHead(p.tok, rest);
    }
    HeadThenRest(PieceText(p), PieceToken(p), rest);
  }

  // ---- spelled text scans to its tokens ----

  lemma WrittenStart(ps: seq<Spaced>)
    requires AllPieces(ps) && ps != []
    ensures Written(ps) != "" && (ps[0].piece.Op? ==> !NumChar(Written(ps)[0]))
  {
    if ps[0].piece.Run? {
      RunShape(ps[0].piece.ip, ps[0].piece.point, ps[0].piece.fp, ps[0].piece.junk);
    }
  }

  /** What stands behind a number is no part of it. */
  lemma BehindNumber(ps: seq<Spaced>)
    requires AllPieces(ps) && SetApart(ps) && ps != [] && ps[0].piece.Run?
    ensures var rest := ps[0].gap + Written(ps[1..]); rest == "" || !NumChar(rest[0])
  {
    if ps[0].gap == "" {
      assert ps[0].gap + Written(ps[1..]) == Written(ps[1..]);
      if |ps| > 1 { WrittenStart(ps[1..]); }
    } else {
      assert Blank(ps[0].gap[0]);
    }
  }

  lemma {:induction false} WrittenScans(ps: seq<Spaced>)
    requires AllPieces(ps) && SetApart(ps)
    ensures TokensOf(Written(ps)) == Some(Tokens(ps))
  {
    if ps != [] {
      assert forall i :: 0 <= i < |ps| - 1 ==> ps[1..][i] == ps[i + 1];
      WrittenScans(ps[1..]);
      TokensSkipBlank(ps[0].gap, Written(ps[1..]));
      if ps[0].piece.Run? { BehindNumber(ps); }
      PieceHead(ps[0].piece, ps[0].gap + Written(ps[1..]));
    }
  }

  // ---- scanned text is spelled ----

  lemma {:induction false} NumRunIs(s: string)
    ensures AllNum(s[..NumRun(s)]) && (NumRun(s) < |s| ==> !NumChar(s[NumRun(s)]))
  {
    if s != "" && NumChar(s[0]) {
      NumRunIs(s[1..]);
      assert s[..NumRun(s)] == [s[0]] + s[1..][..NumRun(s[1..])];
    }
  }

  lemma {:induction false} DigitSpanIs(s: string)
    ensures AllDigits(s[..DigitSpan(s)]) && (DigitSpan(s) < |s| ==> !IsDigit(s[DigitSpan(s)]))
  {
    if s != "" && IsDigit(s[0]) {
      DigitSpanIs(s[1..]);
      assert s[..DigitSpan(s)] == [s[0]] + s[1..][..DigitSpan(s[1..])];
    }
  }

  lemma SplitAtPoint(ip: string, rest: string) returns (p: Piece)
    requires AllDigits(ip) && AllNum(rest) && (ip != "" || (rest != "" && IsDigit(rest[0])))
    ensures p.Run? && ValidPiece(p) && PieceText(p) == ip + ("." + rest)
  {
    var f := DigitSpan(rest);
    DigitSpanIs(rest);
    p := Run(ip, true, rest[..f], rest[f..]);
    assert rest == rest[..f] + rest[f..];
    assert f < |rest| ==> rest[f] == '.';
  }

  lemma SplitRun(num: string) returns (p: Piece)
    requires AllNum(num) && StartsNumber(num)
    ensures p.Run? && ValidPiece(p) && PieceText(p) == num
  {
    var d := DigitSpan(num);
    DigitSpanIs(num);
    if d == |num| {
      p := Run(num, false, "", "");
      assert num[..d] == num && num + "" == num;
    } else {
      assert NumChar(num[d]) && num[d] == '.';
      p := SplitAtPoint(num[..d], num[d + 1..]);
      assert num == num[..d] + ("." + num[d + 1..]);
    }
  }

  lemma OpPiece(c: char)
    requires OpOf(c).Some?
    ensures ValidPiece(Op(OpOf(c).value)) && PieceText(Op(OpOf(c).value)) == [c]
  {
  }

  lemma {:induction false} ScannedIsSpelled(s: string) returns (lead: string, ps: seq<Spaced>)
    requires TokensOf(s).Some?
    ensures Spells(s, lead, ps)
    decreases |s|
  {
    if s == "" {
      lead, ps := "", [];
    } else if Blank(s[0]) {
      var l, q := ScannedIsSpelled(s[1..]);
      lead, ps := [s[0]] + l, q;
      assert s == [s[0]] + s[1..] == lead + Written(ps);
    } else if StartsNumber(s) {
      var n := NumRun(s);
      var l, q := ScannedIsSpelled(s[n..]);
      NumRunIs(s);
      var p := SplitRun(s[..n]);
      lead, ps := "", [Spaced(p, l)] + q;
      AddPiece(s, n, p, l, q);
    } else {
      var l, q := ScannedIsSpelled(s[1..]);
      OpPiece(s[0]);
      lead, ps := "", [Spaced(Op(OpOf(s[0]).value), l)] + q;
      AddPiece(s, 1, Op(OpOf(s[0]).value), l, q);
    }
  }

  lemma NumberFirst(ps: seq<Spaced>)
    requires AllPieces(ps) && ps != [] && ps[0].piece.Run?
    ensures Written(ps) != "" && NumChar(Written(ps)[0])
  {
    RunShape(ps[0].piece.ip, ps[0].piece.point, ps[0].piece.fp, ps[0].piece.junk);
  }

  lemma WrittenCons(s: string, n: nat, p: Piece, l: string, q: seq<Spaced>)
    requires n <= |s| && PieceText(p) == s[..n] && s[n..] == l + Written(q)
    ensures s == "" + Written([Spaced(p, l)] + q)
  {
    var ps := [Spaced(p, l)] + q;
    assert ps[1..] == q && s == s[..n] + s[n..];
    assert Written(ps) == PieceText(p) + (l + Written(q));
  }

  lemma ApartCons(x: Spaced, q: seq<Spaced>)
    requires SetApart(q) && (q != [] && x.piece.Run? && q[0].piece.Run? ==> x.gap != "")
    ensures SetApart([x] + q)
  {
  }

  lemma AddPiece(s: string, n: nat, p: Piece, l: string, q: seq<Spaced>)
    requires 0 < n <= |s| && ValidPiece(p) && PieceText(p) == s[..n] && Spells(s[n..], l, q)
    requires p.Run? && n < |s| ==> !NumChar(s[n])
    ensures Spells(s, "", [Spaced(p, l)] + q)
  {
    WrittenCons(s, n, p, l, q);
    if q != [] && q[0].piece.Run? {
      NumberFirst(q);
      assert l == "" ==> l + Written(q) == Written(q);
      assert s[n..] != "" && s[n] == s[n..][0];
    }
    ApartCons(Spaced(p, l), q);
  }

  // ---- which strings evaluate ----

  function Trim(s: string): string { TrimRight(TrimLeft(s)) }

  /** The trimmed text spells the tokens of a derivation of value v. */
  ghost predicate SpeltAs(s: string, v: real, lead: string, ps: seq<Spaced>, e: Exp) {
    Spells(Trim(s), lead, ps) && YieldE(e) == Tokens(ps) && ValueE(e) == Some(v)
  }

  lemma SpeltEvaluates(s: string, v: real, lead: string, ps: seq<Spaced>, e: Exp)
    requires SpeltAs(s, v, lead, ps, e)
    ensures Evaluate(s) == Some(v)
  {
    TokensSkipBlank(lead, Written(ps));
    WrittenScans(ps);
    EvaluatesDerivation(e);
  }

  lemma EvaluatedIsSpelt(s: string, v: real) returns (lead: string, ps: seq<Spaced>, e: Exp)
    requires Evaluate(s) == Some(v)
    ensures SpeltAs(s, v, lead, ps, e)
  {
    lead, ps := ScannedIsSpelled(Trim(s));
    TokensSkipBlank(lead, Written(ps));
    WrittenScans(ps);
    EvaluatorMatchesGrammar(Tokens(ps), v);
    e :| YieldE(e) == Tokens(ps) && ValueE(e) == Some(v);
  }

  /** A string evaluates to v if and only if, trimmed, it spells with any blanks the tokens
      of a derivation with no zero divisor and value v; null is for all other strings. */
  lemma {:induction false} EvaluatesExactlyWhenSpelt(s: string, v: real)
    ensures Evaluate(s) == Some(v) <==> exists lead, ps, e :: SpeltAs(s, v, lead, ps, e)
  {
    if Evaluate(s) == Some(v) {
      var lead, ps, e := EvaluatedIsSpelt(s, v);
    }
    forall lead, ps, e | SpeltAs(s, v, lead, ps, e) ensures Evaluate(s) == Some(v) {
      SpeltEvaluates(s, v, lead, ps, e);
    }
  }

  // ---- the second point ----

  /** Every number is spelled the ordinary way, with one point at most. */
  ghost predicate Ordinary(ps: seq<Spaced>) { forall i :: 0 <= i < |ps| && ps[i].piece.Run? ==> ps[i].piece.junk == "" }

  ghost predicate SecondAt(s: string, i: nat, j: nat) { i < j < |s| && s[i] == '.' && s[j] == '.' && AllNum(s[i..j]) }

  /** Two points with nothing but digits and points between them. */
  ghost predicate SecondPoint(s: string) {
    exists i: nat, j: nat :: SecondAt(s, i, j)
  }

  lemma NoPointNoSecond(s: string)
    requires forall i :: 0 <= i < |s| ==> s[i] != '.'
    ensures !SecondPoint(s)
  {
  }

  lemma SecondInLeft(a: string, b: string)
    requires SecondPoint(a)
    ensures SecondPoint(a + b)
  {
    var i: nat, j: nat :| SecondAt(a, i, j);
    assert (a + b)[i..j] == a[i..j] && SecondAt(a + b, i, j);
  }

  lemma SecondInRight(a: string, b: string)
    requires SecondPoint(b)
    ensures SecondPoint(a + b)
  {
    var i: nat, j: nat :| SecondAt(b, i, j);
    assert (a + b)[|a| + i..|a| + j] == b[i..j] && SecondAt(a + b, |a| + i, |a| + j);
  }

  lemma SeamIsNum(a: string, b: string, i: nat, j: nat)
    requires i < |a| <= j && SecondAt(a + b, i, j)
    ensures NumChar(a[|a| - 1]) && NumChar(b[0])
  {
    assert (a + b)[i..j][|a| - 1 - i] == a[|a| - 1];
    if j > |a| { assert (a + b)[i..j][|a| - i] == b[0]; }
  }

  lemma OnOneSide(a: string, b: string, i: nat, j: nat)
    requires SecondAt(a + b, i, j) && (j < |a| || i >= |a|)
    ensures SecondPoint(a) || SecondPoint(b)
  {
    if j < |a| {
      assert a[i..j] == (a + b)[i..j] && SecondAt(a, i, j);
    } else {
      assert b[i - |a|..j - |a|] == (a + b)[i..j] && SecondAt(b, i - |a|, j - |a|);
    }
  }

  /** Where one side of the seam is no part of a number, the two points are on one side. */
  lemma SecondSplits(a: string, b: string)
    requires a == "" || b == "" || !NumChar(a[|a| - 1]) || !NumChar(b[0])
    ensures SecondPoint(a + b) <==> SecondPoint(a) || SecondPoint(b)
  {
    if SecondPoint(a) {
      SecondInLeft(a, b);
    } else if SecondPoint(b) {
      SecondInRight(a, b);
    } else if SecondPoint(a + b) {
      var i: nat, j: nat :| SecondAt(a + b, i, j);
      if i < |a| <= j {
        SeamIsNum(a, b, i, j);
      } else {
        OnOneSide(a, b, i, j);
      }
    }
  }

  lemma RunSecondPoint(p: Piece)
    requires ValidPiece(p) && p.Run?
    ensures SecondPoint(PieceText(p)) <==> p.junk != ""
  {
    var num := PieceText(p);
    LitDigits(p.ip, p.fp);
    RunShape(p.ip, p.point, p.fp, p.junk);
    if p.junk != "" {
      var i, j := |p.ip|, |p.ip| + 1 + |p.fp|;
      assert num[i] == '.' && num[j] == p.junk[0];
      assert forall k :: 0 <= k < j - i ==> num[i..j][k] == num[i + k];
      assert SecondAt(num, i, j);
    } else if p.point {
      assert p.fp + "" == p.fp;
      assert forall k :: 0 <= k < |num| && num[k] == '.' ==> k == |p.ip|;
    } else {
      NoPointNoSecond(num);
    }
  }

  lemma PieceSecondPoint(p: Piece)
    requires ValidPiece(p)
    ensures SecondPoint(PieceText(p)) <==> p.Run? && p.junk != ""
  {
    if p.Run? {
      RunSecondPoint(p);
    } else {
      NoPointNoSecond(PieceText(p));
    }
  }

  lemma BlankNoSecond(s: string)
    requires AllBlank(s)
    ensures !SecondPoint(s)
  {
    assert forall i :: 0 <= i < |s| ==> Blank(s[i]);
    NoPointNoSecond(s);
  }

  lemma GapSplit(gap: string, rest: string)
    requires AllBlank(gap)
    ensures SecondPoint(gap + rest) <==> SecondPoint(rest)
  {
    BlankNoSecond(gap);
    assert gap != "" ==> Blank(gap[|gap| - 1]);
    SecondSplits(gap, rest);
  }

  lemma PieceSplit(p: Piece, rest: string)
    requires ValidPiece(p) && (p.Run? ==> rest == "" || !NumChar(rest[0]))
    ensures SecondPoint(PieceText(p) + rest) <==> SecondPoint(PieceText(p)) || SecondPoint(rest)
  {
    SecondSplits(PieceText(p), rest);
  }

  lemma PiecesSplit(ps: seq<Spaced>)
    requires AllPieces(ps) && SetApart(ps) && ps != []
    ensures SecondPoint(Written(ps)) <==> SecondPoint(PieceText(ps[0].piece)) || SecondPoint(Written(ps[1..]))
  {
    GapSplit(ps[0].gap, Written(ps[1..]));
    if ps[0].piece.Run? {
      BehindNumber(ps);
    }
    PieceSplit(ps[0].piece, ps[0].gap + Written(ps[1..]));
  }

  lemma OrdinaryCons(ps: seq<Spaced>)
    requires ps != []
    ensures Ordinary(ps) <==> (ps[0].piece.Run? ==> ps[0].piece.junk == "") && Ordinary(ps[1..])
  {
    assert ps == [ps[0]] + ps[1..];
  }

  lemma {:induction false} OrdinaryExactlyWhenNoSecond(ps: seq<Spaced>)
    requires AllPieces(ps) && SetApart(ps)
    ensures Ordinary(ps) <==> !SecondPoint(Written(ps))
  {
    if ps != [] {
      assert forall i :: 0 <= i < |ps| - 1 ==> ps[1..][i] == ps[i + 1];
      OrdinaryExactlyWhenNoSecond(ps[1..]);
      OrdinaryCons(ps);
      PieceSecondPoint(ps[0].piece);
      PiecesSplit(ps);
    }
  }

  lemma SpelledSecond(s: string, lead: string, ps: seq<Spaced>)
    requires Spells(s, lead, ps)
    ensures Ordinary(ps) <==> !SecondPoint(s)
  {
    OrdinaryExactlyWhenNoSecond(ps);
    GapSplit(lead, Written(ps));
  }

  /** "Null on any invalid input" is false of a number with a second point, which is cut
      there: a string that evaluates is ordinary arithmetic, of that value, if and only if
      it has no two points with only digits and points between them. */
  lemma {:induction false} OrdinaryExactlyWhenNoSecondPoint(s: string, v: real)
    requires Evaluate(s) == Some(v)
    ensures (exists lead, ps, e :: SpeltAs(s, v, lead, ps, e) && Ordinary(ps)) <==> !SecondPoint(Trim(s))
  {
    var lead, ps, e := EvaluatedIsSpelt(s, v);
    SpelledSecond(Trim(s), lead, ps);
    forall l, q, f | SpeltAs(s, v, l, q, f) ensures Ordinary(q) <==> !SecondPoint(Trim(s)) {
      SpelledSecond(Trim(s), l, q);
    }
  }

  lemma TrimOfOrdinary(s: string)
    requires s != "" && !TrimChar(s[0]) && !TrimChar(s[|s| - 1])
    ensures Trim(s) == s
  {
  }

  lemma OneNumber(n: real)
    ensures EvalTokens([Num(n)]) == Some(n)
  {
    var f := FNum(n);
    assert YieldE(ET(TF(f))) == YieldT(TF(f)) == YieldF(f) == [Num(n)];
    assert ValueE(ET(TF(f))) == ValueT(TF(f)) == ValueF(f) == Some(n);
    EvaluatesDerivation(ET(TF(f)));
  }

  lemma ScansAlone(p: Piece)
    requires ValidPiece(p)
    ensures TokensOf(PieceText(p)) == Some([PieceToken(p)])
  {
    PieceHead(p, "");
    assert PieceText(p) + "" == PieceText(p) && [PieceToken(p)] + [] == [PieceToken(p)];
  }

  lemma NumberAlone(p: Piece)
    requires ValidPiece(p) && p.Run?
    ensures Trim(PieceText(p)) == PieceText(p) && Evaluate(PieceText(p)) == Some(LitValue(p.ip, p.fp))
  {
    var s := PieceText(p);
    RunShape(p.ip, p.point, p.fp, p.junk);
    assert NumChar(s[0]) && NumChar(s[|s| - 1]);
    TrimOfOrdinary(s);
    ScansAlone(p);
    OneNumber(LitValue(p.ip, p.fp));
  }

  /** Whatever digits and points follow a second point, the number is cut there: 1.2.3
      gives what 1.2 gives. */
  lemma {:induction false} SecondPointIsCut(ip: string, fp: string, junk: string)
    requires ValidLit(ip, fp) && AllNum(junk) && junk != "" && junk[0] == '.'
    ensures Evaluate(ip + ("." + (fp + junk))) == Evaluate(ip + ("." + (fp + ""))) == Some(LitValue(ip, fp))
    ensures SecondPoint(Trim(ip + ("." + (fp + junk))))
  {
    NumberAlone(Run(ip, true, fp, junk));
    NumberAlone(Run(ip, true, fp, ""));
    RunSecondPoint(Run(ip, true, fp, junk));
  }
}
