/** The tool-table law over whole files, in both directions. */
module ToolTableTheorem {
  import opened Wrappers
  import opened Text
  import opened StableSort
  import opened ToolTable
  import opened ToolTableRoundTrip

  ghost predicate NoBreak(s: string) { forall i :: 0 <= i < |s| ==> !IsBreak(s[i]) }

  /** No line break is left in a remark once trailing whitespace is stripped:
      what a caller can check before writing. */
  ghost predicate Clean(remark: string) { NoBreak(RStrip(remark)) }

  /** What reading a written table must return: the tools in order, those with a
      negative number left out, remarks stripped, X and Y zero. */
  function Expected(sorted: seq<ToolIn>): seq<Tool> {
    if sorted == [] then []
    else if Numbered(sorted[0]) then [Norm(sorted[0], Strip(sorted[0].remark))] + Expected(sorted[1..])
    else Expected(sorted[1..])
  }

  // ---- lines of a file ----

  lemma {:induction false} BreakAtOf(a: string, rest: string)
    requires NoBreak(a) && (rest == "" || IsBreak(rest[0]))
    ensures BreakAt(a + rest) == |a|
  {
    if a == "" {
      assert a + rest == rest;
    } else {
      assert (a + rest)[1..] == a[1..] + rest;
      BreakAtOf(a[1..], rest);
    }
  }

  lemma {:induction false} BreakAtStops(s: string)
    ensures NoBreak(s[..BreakAt(s)])
    ensures BreakAt(s) < |s| ==> IsBreak(s[BreakAt(s)])
  {
    if s != "" && !IsBreak(s[0]) {
      BreakAtStops(s[1..]);
      assert s[..BreakAt(s)] == [s[0]] + s[1..][..BreakAt(s[1..])];
    }
  }

  lemma ParseFirstLine(a: string, c: char, rest: string)
    requires NoBreak(a) && IsBreak(c)
    ensures ParseText(a + ([c] + rest)) == Prepend(ParseLine(a), ParseText(rest))
  {
    var s := a + ([c] + rest);
    BreakAtOf(a, [c] + rest);
    assert s[..|a|] == a && s[|a| + 1..] == rest;
    assert ([a] + FileLines(rest))[1..] == FileLines(rest);
  }

  lemma ParseLineBlank(s: string)
    requires AllSpace(s)
    ensures ParseLine(s) == Ok(None)
  {
    LStripSpaces(s, "");
    assert s + "" == s;
    StripNothing();
  }

  /** Blank lines contribute nothing. */
  lemma {:induction false} ParseBlankTail(w: string, rest: string)
    requires AllSpace(w)
    ensures ParseText(w + ("\n" + rest)) == ParseText(rest)
    decreases |w|
  {
    var e := BreakAt(w);
    BreakAtStops(w);
    ParseLineBlank(w[..e]);
    if e == |w| {
      assert w[..e] == w;
      ParseFirstLine(w, '\n', rest);
    } else {
      var w' := w[e + 1..];
      assert w + ("\n" + rest) == w[..e] + ([w[e]] + (w' + ("\n" + rest)));
      ParseFirstLine(w[..e], w[e], w' + ("\n" + rest));
      ParseBlankTail(w', rest);
    }
  }

  lemma BlankBehindLine(body: string, w: string)
    requires AllSpace(w) && body != "" && !IsSpace(body[0])
    ensures ParseLine(body + w) == ParseLine(body)
  {
    RStripSpaces(body, w);
    assert LStrip(body + w) == body + w && LStrip(body) == body;
  }

  lemma NoBreakConcat(a: string, b: string)
    requires NoBreak(a) && NoBreak(b)
    ensures NoBreak(a + b)
  {
  }

  lemma ThenBlankLine(body: string, w: string, rest: string)
    requires NoBreak(body) && NoBreak(w) && AllSpace(w) && body != "" && !IsSpace(body[0])
    ensures ParseText((body + w) + ("\n" + rest)) == Prepend(ParseLine(body), ParseText(rest))
  {
    NoBreakConcat(body, w);
    BlankBehindLine(body, w);
    ParseFirstLine(body + w, '\n', rest);
  }

  lemma ThenBlankLines(body: string, a: string, c: char, b: string, rest: string)
    requires NoBreak(body) && NoBreak(a) && AllSpace(a) && IsBreak(c) && AllSpace(b) && body != "" && !IsSpace(body[0])
    ensures ParseText((body + a) + ([c] + (b + ("\n" + rest)))) == Prepend(ParseLine(body), ParseText(rest))
  {
    NoBreakConcat(body, a);
    BlankBehindLine(body, a);
    ParseFirstLine(body + a, c, b + ("\n" + rest));
    ParseBlankTail(b, rest);
  }

  /** A line followed by any whitespace, breaks included, parses as that line alone. */
  lemma ParseLineThenBlank(body: string, w: string, rest: string)
    requires NoBreak(body) && AllSpace(w) && body != "" && !IsSpace(body[0])
    ensures ParseText(body + (w + ("\n" + rest))) == Prepend(ParseLine(body), ParseText(rest))
  {
    var e := BreakAt(w);
    BreakAtStops(w);
    if e == |w| {
      assert w[..e] == w;
      Assoc(body, w, "\n" + rest);
      ThenBlankLine(body, w, rest);
    } else {
      assert w == w[..e] + ([w[e]] + w[e + 1..]);
      RegroupBreak(body, w[..e], w[e], w[e + 1..], rest);
      ThenBlankLines(body, w[..e], w[e], w[e + 1..], rest);
    }
  }

  lemma RegroupBreak(body: string, a: string, c: char, b: string, rest: string)
    ensures body + ((a + ([c] + b)) + ("\n" + rest)) == (body + a) + ([c] + (b + ("\n" + rest)))
  {
    Assoc(a, [c] + b, "\n" + rest);
    Assoc([c], b, "\n" + rest);
    Assoc(body, a, [c] + (b + ("\n" + rest)));
  }

  // ---- one row ----

  lemma RemarkSplit(data: string, r: string, w: string, rest: string)
    ensures data + ("   ; " + (r + w)) + ("\n" + rest) == (data + ("   ; " + r)) + (w + ("\n" + rest))
  {
    Assoc("   ; ", r, w);
    Assoc(data, "   ; " + r, w);
    Assoc(data + ("   ; " + r), w, "\n" + rest);
  }

  lemma RemarkLine(data: string, r: string)
    requires AllData(data) && |data| > 0 && data[0] == 'T' && NoBreak(r)
    ensures var line := data + ("   ; " + r); NoBreak(line) && line != "" && !IsSpace(line[0])
  {
    DataNoBreak(data);
    NoBreakConcat("   ; ", r);
    NoBreakConcat(data, "   ; " + r);
  }

  lemma DataNoBreak(data: string)
    requires AllData(data)
    ensures NoBreak(data)
  {
  }

  lemma RemarkRow(t: ToolIn, data: string, remark: string, rest: string)
    requires WrittenData(t, data) && Clean(remark)
    ensures ParseText(data + ("   ; " + remark) + ("\n" + rest)) == Prepend(LineResult(t, remark), ParseText(rest))
  {
    var r := RStrip(remark);
    RStripPrefix(remark);
    var w := remark[|r|..];
    assert remark == r + w;
    RemarkSplit(data, r, w, rest);
    RemarkLine(data, r);
    ParseLineThenBlank(data + ("   ; " + r), w, rest);
    ParseRemark(t, data, r);
    StripOfRStrip(remark);
  }

  lemma PlainRow(t: ToolIn, data: string, rest: string)
    requires WrittenData(t, data)
    ensures ParseText(data + ("\n" + rest)) == Prepend(LineResult(t, ""), ParseText(rest))
  {
    ParseFirstLine(data, '\n', rest);
    ParsePlain(t, data, "");
    assert data + "" == data;
  }

  /** A row with a clean remark parses as its own tool, whatever follows. */
  lemma CleanRow(t: ToolIn, rest: string)
    requires Clean(t.remark)
    ensures ParseText(RowText(t) + rest) == Prepend(LineResult(t, t.remark), ParseText(rest))
  {
    DataTextWritten(t);
    Assoc(LineText(t), "\n", rest);
    if t.remark == "" {
      PlainRow(t, DataText(t), rest);
    } else {
      RemarkRow(t, DataText(t), t.remark, rest);
    }
  }

  // ---- when the remark is not clean ----

  function InkCount(s: string): nat {
    if s == "" then 0 else (if IsSpace(s[0]) then 0 else 1) + InkCount(s[1..])
  }

  lemma {:induction false} InkAppend(a: string, b: string)
    ensures InkCount(a + b) == InkCount(a) + InkCount(b)
  {
    if a == "" {
      assert a + b == b;
    } else {
      assert (a + b)[1..] == a[1..] + b;
      InkAppend(a[1..], b);
    }
  }

  lemma {:induction false} InkOfSpaces(s: string)
    requires AllSpace(s)
    ensures InkCount(s) == 0
  {
    if s != "" { InkOfSpaces(s[1..]); }
  }

  lemma {:induction false} InkOfLStrip(s: string)
    ensures InkCount(LStrip(s)) == InkCount(s)
  {
    if s != "" && IsSpace(s[0]) { InkOfLStrip(s[1..]); }
  }

  lemma InkOfRStrip(s: string)
    ensures InkCount(RStrip(s)) == InkCount(s)
  {
    RStripPrefix(s);
    var r := RStrip(s);
    InkAppend(r, s[|r|..]);
    InkOfSpaces(s[|r|..]);
    assert s == r + s[|r|..];
  }

  lemma InkOfStrip(s: string)
    ensures InkCount(Strip(s)) == InkCount(s)
  {
    InkOfLStrip(s);
    InkOfRStrip(LStrip(s));
  }

  lemma InkBefore(s: string, e: nat, i: nat)
    requires e <= i < |s| && !IsSpace(s[i])
    ensures InkCount(s[..e]) < InkCount(s)
  {
    assert s == s[..i] + s[i..];
    InkAppend(s[..i], s[i..]);
    assert s[..i] == s[..e] + s[e..i];
    InkAppend(s[..e], s[e..i]);
  }

  lemma UncleanBreak(remark: string) returns (last: nat)
    requires !Clean(remark)
    ensures BreakAt(remark) <= last < |remark| && !IsSpace(remark[last])
  {
    var r := RStrip(remark);
    RStripPrefix(remark);
    var i :| 0 <= i < |r| && IsBreak(r[i]);
    assert remark[i] == r[i];
    last := |r| - 1;
    assert remark[last] == r[last];
    BreakAtIsFirst(remark, i);
  }

  lemma {:induction false} BreakAtIsFirst(s: string, i: nat)
    requires i < |s| && IsBreak(s[i])
    ensures BreakAt(s) <= i
  {
    if i > 0 && !IsBreak(s[0]) { BreakAtIsFirst(s[1..], i - 1); }
  }

  /** Cutting an unclean remark at its first break loses ink. */
  lemma CutLosesInk(remark: string)
    requires !Clean(remark)
    ensures BreakAt(remark) < |remark|
    ensures Strip(remark[..BreakAt(remark)]) != Strip(remark)
  {
    var last := UncleanBreak(remark);
    InkBefore(remark, BreakAt(remark), last);
    InkOfStrip(remark[..BreakAt(remark)]);
    InkOfStrip(remark);
  }

  /** A numbered tool whose remark is not clean does not come back as itself. */
  lemma UncleanRow(t: ToolIn, rest: string)
    requires Numbered(t) && !Clean(t.remark)
    ensures var r := ParseText(RowText(t) + rest);
            r.Ok? ==> |r.value| > 0 && r.value[0] != Norm(t, Strip(t.remark))
  {
    var remark := t.remark;
    CutLosesInk(remark);
    DataTextWritten(t);
    UncleanText(t, DataText(t), rest);
    assert remark != "";
    Assoc(LineText(t), "\n", rest);
  }

  lemma UncleanSplit(data: string, f: string, c: char, g: string, rest: string)
    ensures data + ("   ; " + (f + ([c] + g))) + ("\n" + rest)
         == (data + ("   ; " + f)) + ([c] + (g + ("\n" + rest)))
  {
    RemarkSplit(data, f, [c] + g, rest);
    Assoc([c], g, "\n" + rest);
  }

  lemma FirstLineRemark(t: ToolIn, data: string, f: string, c: char, tail: string)
    requires WrittenData(t, data) && NoBreak(f) && IsBreak(c)
    ensures ParseText((data + ("   ; " + f)) + ([c] + tail)) == Prepend(LineResult(t, f), ParseText(tail))
  {
    var line := data + ("   ; " + f);
    RemarkLine(data, f);
    ParseFirstLine(line, c, tail);
    ParseRemark(t, data, f);
  }

  /** What an unclean remark's row parses to: its first line as a tool, the rest as lines. */
  lemma UncleanParse(t: ToolIn, data: string, f: string, c: char, g: string, rest: string)
    requires Numbered(t) && WrittenData(t, data) && NoBreak(f) && IsBreak(c)
    ensures ParseText(data + ("   ; " + (f + ([c] + g))) + ("\n" + rest))
         == Prepend(LineResult(t, f), ParseText(g + ("\n" + rest)))
  {
    UncleanSplit(data, f, c, g, rest);
    FirstLineRemark(t, data, f, c, g + ("\n" + rest));
  }

  lemma UncleanText(t: ToolIn, data: string, rest: string)
    requires Numbered(t) && !Clean(t.remark) && WrittenData(t, data)
    ensures var r := ParseText(data + ("   ; " + t.remark) + ("\n" + rest));
            r.Ok? ==> |r.value| > 0 && r.value[0] != Norm(t, Strip(t.remark))
  {
    var remark := t.remark;
    CutLosesInk(remark);
    BreakAtStops(remark);
    var e := BreakAt(remark);
    assert remark == remark[..e] + ([remark[e]] + remark[e + 1..]);
    UncleanParse(t, data, remark[..e], remark[e], remark[e + 1..], rest);
  }

  // ---- whole files ----

  ghost predicate AllClean(tools: seq<ToolIn>) {
    forall i :: 0 <= i < |tools| ==> Clean(tools[i].remark)
  }

  ghost predicate AllNumbered(tools: seq<ToolIn>) {
    forall i :: 0 <= i < |tools| ==> Numbered(tools[i])
  }

  lemma RowsCons(sorted: seq<ToolIn>)
    requires sorted != []
    ensures Glue(MapRows(sorted, RowText)) == RowText(sorted[0]) + Glue(MapRows(sorted[1..], RowText))
  {
    var rows := MapRows(sorted, RowText);
    assert rows[1..] == MapRows(sorted[1..], RowText);
  }

  lemma CleanCons(sorted: seq<ToolIn>)
    requires sorted != []
    ensures AllClean(sorted) <==> Clean(sorted[0].remark) && AllClean(sorted[1..])
  {
    assert sorted == [sorted[0]] + sorted[1..];
  }

  lemma {:induction false} RowsParse(sorted: seq<ToolIn>)
    requires AllClean(sorted)
    ensures ParseText(Glue(MapRows(sorted, RowText))) == Ok(Expected(sorted))
  {
    if sorted != [] {
      RowsParse(sorted[1..]);
      RowsCons(sorted);
      CleanRow(sorted[0], Glue(MapRows(sorted[1..], RowText)));
    }
  }

  lemma FirstIsClean(t: ToolIn, rest: string, expected: seq<Tool>)
    requires Numbered(t) && ParseText(RowText(t) + rest) == Ok([Norm(t, Strip(t.remark))] + expected)
    ensures Clean(t.remark) && ParseText(rest) == Ok(expected)
  {
    if !Clean(t.remark) {
      UncleanRow(t, rest);
      assert false;
    }
    CleanRow(t, rest);
    TailOfPrepend(Norm(t, Strip(t.remark)), ParseText(rest), expected);
  }

  ghost predicate RowsParseBack(sorted: seq<ToolIn>) {
    ParseText(Glue(MapRows(sorted, RowText))) == Ok(Expected(sorted))
  }

  lemma FirstRowParsesBack(sorted: seq<ToolIn>)
    requires sorted != [] && Numbered(sorted[0]) && RowsParseBack(sorted)
    ensures Clean(sorted[0].remark) && RowsParseBack(sorted[1..])
  {
    RowsCons(sorted);
    FirstIsClean(sorted[0], Glue(MapRows(sorted[1..], RowText)), Expected(sorted[1..]));
  }

  lemma {:induction false} RowsParseOnlyIfClean(sorted: seq<ToolIn>)
    requires AllNumbered(sorted) && RowsParseBack(sorted)
    ensures AllClean(sorted)
  {
    if sorted != [] {
      FirstRowParsesBack(sorted);
      RowsParseOnlyIfClean(sorted[1..]);
      CleanCons(sorted);
    }
  }

  lemma TailOfPrepend(t: Tool, tail: Result<seq<Tool>>, expected: seq<Tool>)
    requires Prepend(Ok(Some(t)), tail) == Ok([t] + expected)
    ensures tail == Ok(expected)
  {
    assert ([t] + tail.value)[1..] == tail.value;
    assert ([t] + expected)[1..] == expected;
  }

  lemma CommentSkipped(h: string, rest: string)
    requires NoBreak(h) && h != "" && h[0] == ';'
    ensures ParseText((h + "\n") + rest) == ParseText(rest)
  {
    Assoc(h, "\n", rest);
    ParseFirstLine(h, '\n', rest);
    RStripPrefix(h);
    assert LStrip(h) == h;
  }

  lemma HeaderSkipped(rest: string)
    ensures ParseText((HeaderText() + "\n") + rest) == ParseText(rest)
  {
    assert NoBreak(";Tool  Pocket ");
    assert NoBreak("Z Offset     ");
    assert NoBreak("Diameter     ");
    assert NoBreak("Remark");
    assert NoBreak(HeaderText());
    CommentSkipped(HeaderText(), rest);
  }

  lemma FileParses(tools: seq<ToolIn>)
    ensures ParseText(FileText(tools)) == ParseText(Glue(MapRows(ByNumber(tools), RowText)))
  {
    var rows := MapRows(ByNumber(tools), RowText);
    assert ([HeaderText() + "\n"] + rows)[1..] == rows;
    HeaderSkipped(Glue(rows));
  }

  lemma SortedSame(tools: seq<ToolIn>)
    ensures AllClean(ByNumber(tools)) <==> AllClean(tools)
    ensures AllNumbered(ByNumber(tools)) <==> AllNumbered(tools)
  {
    var s := ByNumber(tools);
    SortMultiset(tools, (t: ToolIn) => t.T);
    forall i | 0 <= i < |tools| ensures tools[i] in s {
      assert tools[i] in multiset(tools);
    }
    forall i | 0 <= i < |s| ensures s[i] in tools {
      assert s[i] in multiset(s);
    }
  }

  /** Round trip, for every table with clean remarks: reading what was written
      gives the tools in stable order of tool number, without those that have a
      negative number. */
  lemma {:induction false} RoundTrip(tools: seq<ToolIn>)
    requires AllClean(tools)
    ensures ParseText(FileText(tools)) == Ok(Expected(ByNumber(tools)))
  {
    SortedSame(tools);
    FileParses(tools);
    RowsParse(ByNumber(tools));
  }

  /** For tables of non-negative numbers the round trip holds exactly when every
      remark is clean. */
  lemma {:induction false} RoundTripExactlyWhenClean(tools: seq<ToolIn>)
    requires AllNumbered(tools)
    ensures ParseText(FileText(tools)) == Ok(Expected(ByNumber(tools))) <==> AllClean(tools)
  {
    SortedSame(tools);
    FileParses(tools);
    if AllClean(tools) {
      RoundTrip(tools);
    } else if ParseText(FileText(tools)) == Ok(Expected(ByNumber(tools))) {
      RowsParseOnlyIfClean(ByNumber(tools));
    }
  }

  /** A remark that runs over a line break is not read back: the rest of it is
      parsed as lines of its own. */
  lemma {:induction false} BrokenRemarkIsLost()
    ensures var tools := [ToolIn(1, Some(1), Some(0), Some(0), "a\nb")];
            ParseText(FileText(tools)) != Ok(Expected(ByNumber(tools)))
  {
    var tools := [ToolIn(1, Some(1), Some(0), Some(0), "a\nb")];
    assert RStrip("a\nb") == "a\nb";
    assert IsBreak("a\nb"[1]);
    assert !Clean(tools[0].remark);
    RoundTripExactlyWhenClean(tools);
  }

  // ---- the order of a written table, without the sort ----

  function WithNumber(n: int): ToolIn -> bool { (t: ToolIn) => Numbered(t) && t.T == n }
  function ReadNumber(n: int): Tool -> bool { (t: Tool) => t.T == n }

  /** What is read back for each tool of a list of numbered ones. */
  function NormAll(tools: seq<ToolIn>): seq<Tool>
    requires forall i :: 0 <= i < |tools| ==> Numbered(tools[i])
  {
    seq(|tools|, i requires 0 <= i < |tools| => Norm(tools[i], Strip(tools[i].remark)))
  }

  lemma WithNumberNumbered(tools: seq<ToolIn>, n: int)
    ensures forall i :: 0 <= i < |Filter(tools, WithNumber(n))| ==> Numbered(Filter(tools, WithNumber(n))[i])
  {
    var f := Filter(tools, WithNumber(n));
    FilterPicks(tools, WithNumber(n));
    forall i | 0 <= i < |f| ensures Numbered(f[i]) {
      assert WithNumber(n)(f[i]);
    }
  }

  lemma NormCons(t: ToolIn, rest: seq<ToolIn>)
    requires Numbered(t) && forall i :: 0 <= i < |rest| ==> Numbered(rest[i])
    ensures NormAll([t] + rest) == [Norm(t, Strip(t.remark))] + NormAll(rest)
  {
  }

  lemma FilterCons<T>(x: T, rest: seq<T>, sel: T -> bool)
    ensures Filter([x] + rest, sel) == (if sel(x) then [x] else []) + Filter(rest, sel)
  {
    assert ([x] + rest)[1..] == rest;
  }

  lemma {:induction false} ExpectedOfNumber(sorted: seq<ToolIn>, n: int)
    ensures forall i :: 0 <= i < |Filter(sorted, WithNumber(n))| ==> Numbered(Filter(sorted, WithNumber(n))[i])
    ensures Filter(Expected(sorted), ReadNumber(n)) == NormAll(Filter(sorted, WithNumber(n)))
  {
    WithNumberNumbered(sorted, n);
    if sorted != [] {
      var t, rest := sorted[0], sorted[1..];
      ExpectedOfNumber(rest, n);
      assert sorted == [t] + rest;
      FilterCons(t, rest, WithNumber(n));
      if Numbered(t) {
        FilterCons(Norm(t, Strip(t.remark)), Expected(rest), ReadNumber(n));
        if t.T == n {
          NormCons(t, Filter(rest, WithNumber(n)));
        }
      }
    }
  }

  lemma {:induction false} ExpectedAscends(sorted: seq<ToolIn>, low: int)
    requires forall i :: 0 <= i < |sorted| ==> low <= sorted[i].T
    requires forall i, j :: 0 <= i < j < |sorted| ==> sorted[i].T <= sorted[j].T
    ensures forall i :: 0 <= i < |Expected(sorted)| ==> low <= Expected(sorted)[i].T
    ensures forall i, j :: 0 <= i < j < |Expected(sorted)| ==> Expected(sorted)[i].T <= Expected(sorted)[j].T
  {
    if sorted != [] {
      ExpectedAscends(sorted[1..], sorted[0].T);
    }
  }

  /** For every table with clean remarks the file read back is in order of tool number, and
      for each number it holds that number's tools, those with a negative pocket left
      out, in the order they were given. */
  lemma {:induction false} WrittenInOrder(tools: seq<ToolIn>, n: int)
    requires AllClean(tools)
    ensures forall i :: 0 <= i < |Filter(tools, WithNumber(n))| ==> Numbered(Filter(tools, WithNumber(n))[i])
    ensures var r := ParseText(FileText(tools));
            && r.Ok?
            && (forall i, j :: 0 <= i < j < |r.value| ==> r.value[i].T <= r.value[j].T)
            && Filter(r.value, ReadNumber(n)) == NormAll(Filter(tools, WithNumber(n)))
  {
    var s := ByNumber(tools);
    RoundTrip(tools);
    ExpectedOfNumber(s, n);
    assert OneKey(WithNumber(n), (t: ToolIn) => t.T, n);
    SortIsStable(tools, (t: ToolIn) => t.T, WithNumber(n), n);
    if s != [] {
      ExpectedAscends(s, s[0].T);
    }
  }
}
